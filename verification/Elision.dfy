/** Which basic block ids the instrumentation leaves out of the stream, and why the parser can put
    them back on every execution path. */
module Elision {
  import opened Common
  import opened Codec
  import opened OpList

  /** A basic block before instrumentation; blocks are numbered in the order they are processed.
      `branch`: the terminator is a branch; `split`: it was put in by the pass itself. */
  datatype BasicBlock = BasicBlock(succs: seq<nat>, branch: bool, exceptional: bool, split: bool,
                                   containCall: bool, containAtomic: bool, insts: seq<Inst>)

  type Cfg = seq<BasicBlock>

  function Preds(g: Cfg, b: nat): set<nat> { set p: nat | p < |g| && b in g[p].succs }

  /** Control leaves the block to a single successor, and nothing is recorded on the way. */
  predicate Plain(x: BasicBlock) {
    x.branch && |x.succs| == 1 && !x.exceptional && !x.split && !x.containCall && !x.containAtomic
  }

  /** What `checkAndApplyElideId` decides: every predecessor is plain and has been processed. */
  predicate Elides(g: Cfg, b: nat) {
    && b < |g| && Stored(g[b].insts) < 160 && Preds(g, b) != {}
    && forall p :: p in Preds(g, b) ==> p < b && Plain(g[p])
  }

  /** The block whose id is left out after block `p`. */
  function NextId(g: Cfg, p: nat): int
    requires p < |g|
  {
    if Plain(g[p]) && Elides(g, g[p].succs[0]) then g[p].succs[0] else -1
  }

  // ---------- the pass ----------

  datatype Info = Info(id: nat, next: int, containCall: bool, containAtomic: bool, ops: seq<OpInfo>)

  type InfoMap = map<nat, Info>

  /** With blocks 0 to n - 1 processed. */
  function NextSoFar(g: Cfg, p: nat, n: nat): int
    requires p < |g|
  {
    if NextId(g, p) < n then NextId(g, p) else -1
  }

  predicate InfoAt(g: Cfg, m: InfoMap, n: nat, p: nat)
    requires p < |g|
  {
    p in m && m[p] == Info(p, NextSoFar(g, p, n), g[p].containCall, g[p].containAtomic, Infos(g[p].insts))
  }

  ghost predicate Processed(g: Cfg, m: InfoMap, elided: set<nat>, n: nat) {
    && n <= |g| && (forall p :: p in m ==> p < n)
    && (forall p: nat {:trigger InfoAt(g, m, n, p)} :: p < n ==> InfoAt(g, m, n, p))
    && (forall b: nat :: b in elided <==> b < n && Elides(g, b))
  }

  predicate GoodPred(g: Cfg, b: nat, p: nat) { p < b && p < |g| && Plain(g[p]) }

  ghost predicate GoodPreds(g: Cfg, b: nat, k: nat) {
    forall p: nat {:trigger GoodPred(g, b, p)} :: p < k && p < |g| && b in g[p].succs ==> GoodPred(g, b, p)
  }

  lemma PredsKnown(g: Cfg, b: nat)
    requires b < |g|
    ensures Preds(g, b) != {} && GoodPreds(g, b, |g|) <==>
            (exists p: nat :: p < |g| && b in g[p].succs)
            && forall p: nat :: p < |g| && b in g[p].succs ==>
                 && p < b && g[p].branch && g[p].succs == [b] && !g[p].exceptional && !g[p].split
                 && !g[p].containCall && !g[p].containAtomic
  {
    assert Preds(g, b) != {} <==> exists p: nat :: p < |g| && b in g[p].succs by {
      forall p: nat | p < |g| && b in g[p].succs ensures p in Preds(g, b) {}
    }
    forall p: nat | p < |g| && b in g[p].succs
      ensures GoodPred(g, b, p) <==>
              && p < b && g[p].branch && g[p].succs == [b] && !g[p].exceptional && !g[p].split
              && !g[p].containCall && !g[p].containAtomic
    {
      if |g[p].succs| == 1 { assert g[p].succs == [g[p].succs[0]]; }
    }
  }

  /** An id is left out if and only if the block stores fewer than 160 addresses and every block before it
      is processed earlier, leads only here and records nothing else. */
  lemma ElidesIff(g: Cfg, b: nat)
    ensures b in ElidedIds(g) <==>
            && b < |g| && |set k | 0 <= k < |g[b].insts| && g[b].insts[k].base.None?| < 160
            && (exists p: nat :: p < |g| && b in g[p].succs)
            && forall p: nat :: p < |g| && b in g[p].succs ==>
                 && p < b && g[p].branch && g[p].succs == [b] && !g[p].exceptional && !g[p].split
                 && !g[p].containCall && !g[p].containAtomic
  {
    if b < |g| {
      StoredIs(g[b].insts);
      PredsKnown(g, b);
      if Stored(g[b].insts) < 160 { GoodElides(g, b); }
    }
  }

  lemma GoodElides(g: Cfg, b: nat)
    requires b < |g| && Stored(g[b].insts) < 160
    ensures Elides(g, b) <==> Preds(g, b) != {} && GoodPreds(g, b, |g|)
  {
    if GoodPreds(g, b, |g|) {
      forall p | p in Preds(g, b) ensures p < b && Plain(g[p]) { assert GoodPred(g, b, p); }
    }
    if Elides(g, b) {
      forall p: nat | p < |g| && b in g[p].succs ensures GoodPred(g, b, p) { assert p in Preds(g, b); }
    }
  }

  /** Only the predecessors of a block are told its id, and only if it is left out. */
  lemma NextOfBlock(g: Cfg, b: nat, p: nat)
    requires p < b < |g|
    ensures NextSoFar(g, p, b + 1) == if Elides(g, b) && p in Preds(g, b) then b else NextSoFar(g, p, b)
    ensures NextSoFar(g, b, b + 1) == -1
  {
    if Elides(g, b) && p in Preds(g, b) {
      assert Plain(g[p]) && g[p].succs[0] == b;
    }
    if NextId(g, p) == b { assert b in g[p].succs; }
    if NextId(g, b) >= 0 {
      var s := g[b].succs[0];
      assert b in Preds(g, s);
    }
  }

  function WithNext(g: Cfg, m: InfoMap, b: nat, k: nat): InfoMap {
    map p | p in m :: if p < k && p < |g| && b in g[p].succs then m[p].(next := b) else m[p]
  }

  function NewInfo(g: Cfg, b: nat): Info
    requires b < |g|
  {
    Info(b, -1, g[b].containCall, g[b].containAtomic, Infos(g[b].insts))
  }

  lemma BlockProcessed(g: Cfg, m: InfoMap, elided: set<nat>, b: nat, m': InfoMap)
    requires b < |g| && Processed(g, m, elided, b)
    requires m' == if Elides(g, b) then WithNext(g, m, b, |g|) else m
    ensures Processed(g, m'[b := NewInfo(g, b)], if Elides(g, b) then elided + {b} else elided, b + 1)
  {
    var m'' := m'[b := NewInfo(g, b)];
    var n := b + 1;
    forall p: nat | p < n ensures InfoAt(g, m'', n, p) {
      if p < b {
        assert InfoAt(g, m, b, p);
        NextOfBlock(g, b, p);
        assert p in Preds(g, b) <==> b in g[p].succs;
      } else {
        NextOfItself(g, b);
      }
    }
  }

  lemma NextOfItself(g: Cfg, b: nat)
    requires b < |g|
    ensures NextSoFar(g, b, b + 1) == -1
  {
    if NextId(g, b) >= 0 { assert b in Preds(g, g[b].succs[0]); }
  }

  class Pass {
    const g: Cfg
    var cfgInfoMap: InfoMap
    var elided: set<nat>

    constructor (g: Cfg)
      ensures this.g == g && Processed(g, cfgInfoMap, elided, 0)
    {
      this.g := g;
      cfgInfoMap, elided := map[], {};
    }

    /** The first loop: may the id of block `b` be left out? */
    method MayElide(b: nat) returns (elide: bool)
      requires Processed(g, cfgInfoMap, elided, b) && b < |g|
      ensures elide <==> (exists p: nat :: p < |g| && b in g[p].succs)
                         && forall p: nat :: p < |g| && b in g[p].succs ==>
                              && p < b && g[p].branch && g[p].succs == [b] && !g[p].exceptional && !g[p].split
                              && !g[p].containCall && !g[p].containAtomic
    {
      PredsKnown(g, b);
      var predCount := 0;
      for p := 0 to |g|
        invariant GoodPreds(g, b, p) && (predCount == 0 <==> forall q: nat :: q < p ==> q !in Preds(g, b))
      {
        if b in g[p].succs {
          assert p in Preds(g, b);
          var usable := UsablePred(b, p);
          if !usable { return false; }
          predCount := predCount + 1;
        }
      }
      elide := predCount != 0;
    }

    method UsablePred(b: nat, p: nat) returns (usable: bool)
      requires Processed(g, cfgInfoMap, elided, b) && b < |g| && p < |g|
      ensures usable <==> GoodPred(g, b, p)
    {
      if p == b { return false; }
      if !g[p].branch || |g[p].succs| != 1 || g[p].exceptional || g[p].split { return false; }
      assert p < b ==> InfoAt(g, cfgInfoMap, b, p);
      if p !in cfgInfoMap { return false; }
      return !cfgInfoMap[p].containCall && !cfgInfoMap[p].containAtomic;
    }

    /** The second loop: every predecessor learns the id left out after it. */
    method ApplyElide(b: nat)
      requires Processed(g, cfgInfoMap, elided, b) && b < |g| && Elides(g, b)
      modifies this`cfgInfoMap
      ensures cfgInfoMap == WithNext(g, old(cfgInfoMap), b, |g|)
    {
      ghost var m := cfgInfoMap;
      for p := 0 to |g|
        invariant cfgInfoMap == WithNext(g, m, b, p)
      {
        if b in g[p].succs {
          assert p in Preds(g, b) && InfoAt(g, m, b, p);
          cfgInfoMap := cfgInfoMap[p := cfgInfoMap[p].(next := b)];
        }
      }
    }

    method ProcessBlock(b: nat)
      requires Processed(g, cfgInfoMap, elided, b) && b < |g| && InstsOk(g[b].insts)
      modifies this
      ensures Processed(g, cfgInfoMap, elided, b + 1)
    {
      ghost var m, e := cfgInfoMap, elided;
      var elide := false;
      var ops, memOpCount := BuildOps(g[b].insts);
      if memOpCount < 160 { elide := MayElide(b); PredsKnown(g, b); GoodElides(g, b); }
      if elide {
        ApplyElide(b);
        elided := elided + {b};
      }
      BlockProcessed(g, m, e, b, cfgInfoMap);
      cfgInfoMap := cfgInfoMap[b := Info(b, -1, g[b].containCall, g[b].containAtomic, ops)];
    }

    method RunOnModule()
      requires Processed(g, cfgInfoMap, elided, 0) && forall b :: 0 <= b < |g| ==> InstsOk(g[b].insts)
      modifies this
      ensures Processed(g, cfgInfoMap, elided, |g|)
    {
      for b := 0 to |g|
        invariant Processed(g, cfgInfoMap, elided, b)
      {
        ProcessBlock(b);
      }
    }

    /** The block information written for the parser. */
    method WriteBlockInfo() returns (table: seq<BlockInfo>)
      requires Processed(g, cfgInfoMap, elided, |g|)
      ensures table == Table(g)
    {
      table := [];
      for b := 0 to |g|
        invariant table == Table(g)[..b]
      {
        assert InfoAt(g, cfgInfoMap, |g|, b);
        NextInRange(g, b);
        table := table + [BlockInfo(cfgInfoMap[b].next, cfgInfoMap[b].ops)];
      }
    }
  }

  lemma NextInRange(g: Cfg, b: nat)
    requires b < |g|
    ensures NextId(g, b) < |g| && NextSoFar(g, b, |g|) == NextId(g, b)
  {
  }

  function Table(g: Cfg): (r: seq<BlockInfo>)
    ensures |r| == |g|
  {
    seq(|g|, b requires 0 <= b < |g| => BlockInfo(NextId(g, b), Infos(g[b].insts)))
  }

  // ---------- executions ----------

  /** Something may be recorded between the block and what follows it in the function: the events and
      blocks of a call, an atomic's, an exception's; or control goes several ways. */
  predicate Breaks(x: BasicBlock) {
    x.containCall || x.containAtomic || x.exceptional || x.split || !x.branch || |x.succs| != 1
  }

  /** A block that is entered from outside the function, or after something else was recorded. */
  predicate Landing(g: Cfg, y: nat) {
    (forall p :: 0 <= p < |g| ==> y !in g[p].succs) || exists p :: 0 <= p < |g| && y in g[p].succs && Breaks(g[p])
  }

  /** What can be recorded after block `last`, before anything when it is None. */
  predicate CanFollow(g: Cfg, last: Option<nat>, e: Event) {
    match e
    case Other(_, _) => last.None? || (last.value < |g| && Breaks(g[last.value]))
    case Block(y, _) =>
      y < |g| && match last
      case None => forall p :: 0 <= p < |g| ==> y !in g[p].succs
      case Some(x) => x < |g| && (y in g[x].succs || (Breaks(g[x]) && Landing(g, y)))
  }

  function LastAfter(last: Option<nat>, e: Event): Option<nat> {
    if e.Block? then Some(e.id) else last
  }

  /** What a block or another operation can record. */
  predicate Recorded(g: Cfg, e: Event) {
    match e
    case Block(id, ops) => id < |g| && id < MaxBlocks && Ran(g[id].insts, ops)
    case Other(kind, vals) => FieldsOk(Widths(kind), vals)
  }

  /** Each base is an earlier operation of its block with a position of 16 bits. */
  predicate Described(g: Cfg) { forall b :: 0 <= b < |g| ==> InstsOk(g[b].insts) && BasesFit(g[b].insts) }

  lemma RecordedOk(g: Cfg, e: Event)
    requires Described(g) && Recorded(g, e)
    ensures EventOk(Table(g), e)
  {
    if e.Block? { RunDescribed(g[e.id].insts, e.ops); }
  }

  /** Events of an execution: blocks as control flows, other events only where a block makes calls or
      contains atomics. */
  ghost predicate Execution(g: Cfg, last: Option<nat>, events: seq<Event>)
    decreases |events|
  {
    events == [] ||
    (CanFollow(g, last, events[0]) && Recorded(g, events[0]) && Execution(g, LastAfter(last, events[0]), events[1..]))
  }

  function ElidedIds(g: Cfg): set<nat> { set b: nat | b < |g| && Elides(g, b) }

  function Expected(g: Cfg, last: Option<nat>): int {
    if last.None? || last.value >= |g| then -1 else NextId(g, last.value)
  }

  /** An id is left out exactly when the parser knows it from the block before. */
  lemma OneStepAgrees(g: Cfg, last: Option<nat>, e: Event)
    requires CanFollow(g, last, e)
    ensures if ElidedId(ElidedIds(g), e) then Expected(g, last) == e.id else Expected(g, last) == -1
  {
    if e.Block? && last.Some? && Plain(g[last.value]) {
      assert last.value in Preds(g, e.id);
    }
    if e.Block? && last.Some? && e.id in g[last.value].succs { assert last.value in Preds(g, e.id); }
  }

  lemma {:induction false} ExecutionAgrees(g: Cfg, last: Option<nat>, events: seq<Event>)
    requires Described(g) && Execution(g, last, events)
    ensures Agrees(Table(g), ElidedIds(g), Expected(g, last), events)
    decreases |events|
  {
    if events != [] {
      var e := events[0];
      OneStepAgrees(g, last, e);
      RecordedOk(g, e);
      ExecutionAgrees(g, LastAfter(last, e), events[1..]);
      if e.Other? && last.Some? { assert Expected(g, last) == -1; }
    }
  }

  /** Whatever path an execution takes, reading its bytes gives back its events: ids left out and
      addresses not stored included. */
  lemma ElisionRoundTrip(g: Cfg, events: seq<Event>, tail: seq<Byte>)
    requires Described(g) && Execution(g, None, events)
    ensures forall e :: e in events ==> EventOk(Table(g), e)
    ensures ParseAll(Table(g), -1, |events|, EncodeAll(Table(g), ElidedIds(g), events) + tail) == Parsed(events, tail)
  {
    ExecutionAgrees(g, None, events);
    StreamRoundTrip(Table(g), ElidedIds(g), -1, events, tail);
  }
}
