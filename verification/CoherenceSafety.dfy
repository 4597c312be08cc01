/** What every reachable state of the protocol satisfies, for any number of nodes, under any
    interleaving, for MSI and for MESI. */
module CoherenceSafety {
  import opened Common
  import opened Coherence
  import opened CoherenceView
  import opened CoherenceHome
  import opened CoherenceSystem
  import opened CoherenceSteps
  import opened CoherenceHomeStep
  import opened CoherenceLocalStep

  // ---------- the invariant holds in every run ----------

  lemma DeliverKeeps(c: Config, s: System, i: nat, s': System)
    requires Inv(c, s) && Enabled(c, false, s, Deliver(i))
    ensures var o := Outcome(c, s, Deliver(i)); o.ok && Sendable(s, o)
    ensures Step(c, false, s, Deliver(i), s') ==> Inv(c, s')
  {
    var o := Outcome(c, s, Deliver(i));
    if ForHome(s[i].inbox[0].typ) {
      ForHomeOnly(c, s, i);
      DeliverHome(c, s, o, s');
    } else {
      DeliverOwnFollows(c, s, i);
      if Step(c, false, s, Deliver(i), s') { DeliverOwn(c, s, i, o, s'); }
    }
  }

  lemma ForHomeOnly(c: Config, s: System, i: nat)
    requires Inv(c, s) && i < c.n && s[i].inbox != [] && ForHome(s[i].inbox[0].typ)
    ensures i == c.home
  {
    assert ViewOk(ViewsOf(c, s)[i]);
    LookOk(c, i, Look1(c, i, Now(c, s, i), s[i].inbox[0]), s[i].inbox[1..]);
  }

  lemma AnswerShape(c: Config, s: System, i: nat, s': System)
    requires c.Valid() && |s| == c.n && Step(c, false, s, CacheAnswers(i), s')
    ensures Answered(c, s, i, s')
  {
    assert s[i].cacheQ[1..] + [] == s[i].cacheQ[1..];
    PushOne(s[i := Node(s[i].st, s[i].inbox, s[i].cacheQ[1..])], Send(i, Msg(i, CacheAnswer(s[i].cacheQ[0]))));
  }

  lemma CacheAnswersKeeps(c: Config, s: System, i: nat, s': System)
    requires Inv(c, s) && Enabled(c, false, s, CacheAnswers(i))
    ensures var o := Outcome(c, s, CacheAnswers(i)); o.ok && Sendable(s, o)
    ensures Step(c, false, s, CacheAnswers(i), s') ==> Inv(c, s')
  {
    if Step(c, false, s, CacheAnswers(i), s') {
      AnswerShape(c, s, i, s');
      CacheAnswersOk(c, s, i, s');
    }
  }

  lemma StartKeeps(c: Config, s: System, i: nat, write: bool, s': System)
    requires Inv(c, s) && Enabled(c, false, s, Start(i, write))
    ensures var o := Outcome(c, s, Start(i, write)); o.ok && Sendable(s, o)
    ensures Step(c, false, s, Start(i, write), s') ==> Inv(c, s')
  {
    var o := Outcome(c, s, Start(i, write));
    StartOk(c, s, i, write, o, s');
    StartShaped(c, s, i, write, o, s');
  }

  lemma StartShaped(c: Config, s: System, i: nat, write: bool, o: Out, s': System)
    requires i < |s| && o == Outcome(c, s, Start(i, write)) && Moves(c, s, i, o)
    ensures Sendable(s, o) && (Step(c, false, s, Start(i, write), s') ==> Moved(c, s, i, o, s'))
  {
  }

  lemma EvictShape(c: Config, s: System, i: nat, o: Out, s': System)
    requires i < |s| && o == Outcome(c, s, Evict(i)) && Moves(c, s, i, o)
    ensures Sendable(s, o) && (Step(c, false, s, Evict(i), s') ==> Moved(c, s, i, o, s'))
  {
  }

  lemma EvictKeeps(c: Config, s: System, i: nat, s': System)
    requires Inv(c, s) && Enabled(c, false, s, Evict(i))
    ensures var o := Outcome(c, s, Evict(i)); o.ok && Sendable(s, o)
    ensures Step(c, false, s, Evict(i), s') ==> Inv(c, s')
  {
    var o := Outcome(c, s, Evict(i));
    EvictOk(c, s, i, o, s');
    EvictShape(c, s, i, o, s');
  }

  lemma StepKeeps(c: Config, s: System, a: Action, s': System)
    requires Inv(c, s) && Enabled(c, false, s, a)
    ensures Outcome(c, s, a).ok && Sendable(s, Outcome(c, s, a))
    ensures Step(c, false, s, a, s') ==> Inv(c, s')
  {
    match a
    case Deliver(i) => DeliverKeeps(c, s, i, s');
    case CacheAnswers(i) => CacheAnswersKeeps(c, s, i, s');
    case Start(i, write) => StartKeeps(c, s, i, write, s');
    case Evict(i) => EvictKeeps(c, s, i, s');
  }

  lemma StepInv(c: Config, s: System, a: Action, s': System)
    requires Inv(c, s) && Step(c, false, s, a, s')
    ensures Inv(c, s')
  {
    StepKeeps(c, s, a, s');
  }

  lemma RunStep(c: Config, strays: bool, tr: seq<System>, acts: seq<Action>, k: nat)
    requires Run(c, strays, tr, acts) && k < |acts|
    ensures |tr| == |acts| + 1 && Step(c, strays, tr[k], acts[k], tr[k + 1])
  {
  }

  lemma RunStart(c: Config, tr: seq<System>, acts: seq<Action>)
    requires c.Valid() && Run(c, false, tr, acts)
    ensures |tr| > 0 && Inv(c, tr[0])
  {
    InitInv(c);
  }

  lemma RunStepInv(c: Config, tr: seq<System>, acts: seq<Action>, k: nat)
    requires c.Valid() && Run(c, false, tr, acts) && k < |acts| && Inv(c, tr[k])
    ensures Inv(c, tr[k + 1])
  {
    RunStep(c, false, tr, acts, k);
    StepInv(c, tr[k], acts[k], tr[k + 1]);
  }

  lemma {:induction false} RunKeeps(c: Config, tr: seq<System>, acts: seq<Action>, k: nat)
    requires c.Valid() && Run(c, false, tr, acts) && k < |tr|
    ensures Inv(c, tr[k])
  {
    if k == 0 {
      RunStart(c, tr, acts);
    } else {
      RunKeeps(c, tr, acts, k - 1);
      RunStepInv(c, tr, acts, k - 1);
    }
  }

  lemma RunLonger(c: Config, strays: bool, tr: seq<System>, acts: seq<Action>, a: Action, s': System)
    requires Run(c, strays, tr, acts) && Step(c, strays, tr[|acts|], a, s')
    ensures Run(c, strays, tr + [s'], acts + [a])
  {
    var tr', acts' := tr + [s'], acts + [a];
    forall k | 0 <= k < |acts'| ensures Step(c, strays, tr'[k], acts'[k], tr'[k + 1]) {
      if k < |acts| { RunStep(c, strays, tr, acts, k); }
    }
  }

  lemma ReachStep(c: Config, strays: bool, s: System, a: Action, s': System)
    requires Reachable(c, strays, s) && Step(c, strays, s, a, s')
    ensures Reachable(c, strays, s')
  {
    var tr, acts :| Run(c, strays, tr, acts) && tr[|tr| - 1] == s;
    RunLonger(c, strays, tr, acts, a, s');
  }

  lemma ReachInit(c: Config, strays: bool)
    ensures Reachable(c, strays, Init(c))
  {
    var tr: seq<System>, acts: seq<Action> := [Init(c)], [];
    assert Run(c, strays, tr, acts) && tr[|tr| - 1] == Init(c);
  }

  lemma ReachableInv(c: Config, s: System)
    requires c.Valid() && Reachable(c, false, s)
    ensures Inv(c, s)
  {
    var tr, acts :| Run(c, false, tr, acts) && tr[|tr| - 1] == s;
    RunKeeps(c, tr, acts, |tr| - 1);
  }

  // ---------- assertions ----------

  /** No assertion of the handlers fails, no front of an empty queue is read, and no message
      goes to a node that does not exist, whatever enabled action comes next. */
  lemma AssertionsHold(c: Config, s: System, a: Action)
    requires c.Valid() && Reachable(c, false, s) && Enabled(c, false, s, a)
    ensures Outcome(c, s, a).ok && Sendable(s, Outcome(c, s, a))
  {
    ReachableInv(c, s);
    StepKeeps(c, s, a, s);
  }

  // ---------- single writer ----------

  predicate Exclusively(s: System) {
    forall i, j :: 0 <= i < |s| && 0 <= j < |s| && i != j && (s[i].st.line == M || s[i].st.line == E) ==>
      s[j].st.line == I
  }

  /** What a node holds or is about to be granted shows in its view. */
  predicate Possesses(x: Node) {
    x.st.line != I || exists k :: 0 <= k < |x.inbox| && Grants(x.inbox[k].typ)
  }

  lemma PossessionShows(c: Config, s: System, i: nat)
    requires Inv(c, s) && i < c.n
    ensures Shown(c, s, i)
  {
    assert ViewOk(ViewsOf(c, s)[i]);
    WriteBacksCounted(c, s, i);
    LookPresent(c, i, Now(c, s, i), s[i].inbox);
    if s[i].st.line == I && Possesses(s[i]) {
      var k :| 0 <= k < |s[i].inbox| && Grants(s[i].inbox[k].typ);
      LookGranted(c, i, Now(c, s, i), s[i].inbox, k);
    }
  }

  /** The node has no part in the line: no copy, no grant, no write-back, no acknowledgement. */
  ghost predicate Uninvolved(c: Config, s: System, i: nat)
    requires c.Valid() && |s| == c.n && i < c.n
  {
    var hq := s[c.home].inbox;
    !Possesses(s[i]) && Bag(hq, i, DataWriteBack) == 0 && Bag(hq, i, InvalidateAck) == 0
  }

  ghost predicate Sharer(c: Config, s: System, i: nat, mask: set<nat>)
    requires c.Valid() && |s| == c.n && i < c.n
  {
    && s[i].st.line != M && s[i].st.line != E
    && (Possesses(s[i]) ==> i in mask)
    && Bag(s[c.home].inbox, i, DataWriteBack) == 0
  }

  ghost predicate SoleOwner(c: Config, s: System, p: nat)
    requires c.Valid() && |s| == c.n && p < c.n
  {
    && Bag(s[c.home].inbox, p, DataWriteBack) <= 1
    && forall i: nat :: i < c.n && i != p ==> Uninvolved(c, s, i)
  }

  /** The directory entry home keeps tells what the nodes and the messages under way can be. */
  ghost predicate DirectoryAgrees(c: Config, s: System)
    requires c.Valid() && |s| == c.n
  {
    var e := DirLookup(s[c.home].st.dir);
    match e.status
    case Uncached => forall i: nat :: i < c.n ==> Uninvolved(c, s, i)
    case Shared => e.mask != {} && forall i: nat :: i < c.n ==> Sharer(c, s, i, e.mask)
    case _ => exists p: nat :: p < c.n && e.mask == {p} && SoleOwner(c, s, p)
  }

  lemma AgreedExclusive(c: Config, s: System)
    requires c.Valid() && |s| == c.n && DirectoryAgrees(c, s)
    ensures Exclusively(s)
  {
    var e := DirLookup(s[c.home].st.dir);
    if OwnedStatus(e) {
      var p: nat :| p < c.n && e.mask == {p} && SoleOwner(c, s, p);
      forall i: nat | i < c.n && i != p ensures s[i].st.line == I { assert Uninvolved(c, s, i); }
    } else {
      forall i: nat | i < c.n ensures s[i].st.line != M && s[i].st.line != E {
        assert if e.status.Uncached? then Uninvolved(c, s, i) else Sharer(c, s, i, e.mask);
      }
    }
  }

  /** How far the views can go, by the status of the directory entry. */
  lemma EntryBounds(c: Config, dir: Option<Entry>, pending: Option<int>, q: seq<Blocked>, vs: Views, hb: multiset<Msg>)
    requires HomeInv(c, dir, pending, q, vs, hb)
    ensures var e := DirLookup(dir);
            match e.status
            case Uncached => forall i: nat :: i < c.n ==> Quiet(vs[i])
            case Shared => e.mask != {} && forall i: nat :: i < c.n ==>
                vs[i].wb == 0 && !vs[i].line.Owned? && (!vs[i].line.Gone? || vs[i].ack > 0 ==> i in e.mask)
            case _ => exists p: nat :: p < c.n && e.mask == {p} && vs[p].wb <= 1 && OthersQuiet(vs, p)
  {
    var e := DirLookup(dir);
    if OwnedStatus(e) {
      var p: nat :| p < |vs| && e.mask == {p} && OthersQuiet(vs, p) && vs[p].wb <= 1;
    } else if e.status.Shared? && q != [] {
      var i :| i in Acking(vs);
      assert i in e.mask;
    }
  }

  ghost predicate Shown(c: Config, s: System, i: nat)
    requires c.Valid() && |s| == c.n && i < c.n
  {
    var v := ViewsOf(c, s)[i];
    && (Possesses(s[i]) ==> !v.line.Gone? || v.wb > 0 || v.ack > 0)
    && (s[i].st.line == M || s[i].st.line == E ==> v.line.Owned? || v.wb > 0)
    && Bag(s[c.home].inbox, i, DataWriteBack) <= v.wb && Bag(s[c.home].inbox, i, InvalidateAck) <= v.ack
  }

  lemma AllShown(c: Config, s: System)
    requires Inv(c, s)
    ensures forall i: nat :: i < c.n ==> Shown(c, s, i)
  {
    forall i: nat | i < c.n ensures Shown(c, s, i) { PossessionShows(c, s, i); }
  }

  lemma ShownAgrees(c: Config, s: System, pending: Option<int>, q: seq<Blocked>, vs: Views)
    requires c.Valid() && |s| == c.n && vs == ViewsOf(c, s) && (forall i: nat :: i < c.n ==> Shown(c, s, i))
    requires HomeInv(c, s[c.home].st.dir, pending, q, vs, HomeBag(c, s))
    ensures DirectoryAgrees(c, s)
  {
    var e := DirLookup(s[c.home].st.dir);
    EntryBounds(c, s[c.home].st.dir, pending, q, vs, HomeBag(c, s));
    if e.status.Uncached? {
      forall i: nat | i < c.n ensures Uninvolved(c, s, i) { assert Shown(c, s, i) && Quiet(vs[i]); }
    } else if e.status.Shared? {
      forall i: nat | i < c.n ensures Sharer(c, s, i, e.mask) { assert Shown(c, s, i); }
    } else {
      var p: nat :| p < c.n && e.mask == {p} && vs[p].wb <= 1 && OthersQuiet(vs, p);
      assert Shown(c, s, p);
      forall i: nat | i < c.n && i != p ensures Uninvolved(c, s, i) { assert Shown(c, s, i) && Quiet(vs[i]); }
      assert SoleOwner(c, s, p);
    }
  }

  lemma InvAgrees(c: Config, s: System)
    requires Inv(c, s)
    ensures DirectoryAgrees(c, s) && Exclusively(s)
  {
    AllShown(c, s);
    var h := s[c.home].st;
    ShownAgrees(c, s, h.pending, Requests(h.blocked), ViewsOf(c, s));
    AgreedExclusive(c, s);
  }

  /** Single writer, or many readers: a line in M or E anywhere is absent everywhere else. */
  lemma SingleWriter(c: Config, s: System)
    requires c.Valid() && Reachable(c, false, s)
    ensures Exclusively(s)
  {
    ReachableInv(c, s);
    InvAgrees(c, s);
  }

  lemma DirectoryAgreement(c: Config, s: System)
    requires c.Valid() && Reachable(c, false, s)
    ensures |s| == c.n && DirectoryAgrees(c, s)
  {
    ReachableInv(c, s);
    InvAgrees(c, s);
  }
}
