/** The list of a block's memory operations: which are left to the parser to derive, and from which other
    one. */
module OpList {
  import opened Common
  import opened Codec

  /** A load or store of a block.  `base` is an earlier one of the same block whose address differs by the
      constant `offset`, if `findSimilarMemoryInst` knows one. */
  datatype Inst = Inst(id: nat, write: bool, size: nat, base: Option<nat>, offset: int)

  /** Where instruction `id` is in the list. */
  function Place(insts: seq<Inst>, id: nat): (k: nat)
    ensures k <= |insts| && (k < |insts| ==> insts[k].id == id) && forall j :: 0 <= j < k ==> insts[j].id != id
  {
    if insts == [] || insts[0].id == id then 0 else 1 + Place(insts[1..], id)
  }

  predicate InstsOk(insts: seq<Inst>) {
    && (forall j, k :: 0 <= j < k < |insts| ==> insts[j].id != insts[k].id)
    && forall k :: 0 <= k < |insts| && insts[k].base.Some? ==> Place(insts, insts[k].base.value) < k
  }

  /** Positions are 16 bits wide. */
  const Short: nat := 0x1_0000

  function InfoOf(insts: seq<Inst>, i: Inst): OpInfo {
    match i.base
    case None => OpInfo(false, 0, 0, i.write, i.size)
    case Some(b) => OpInfo(true, Place(insts, b) % Short, i.offset, i.write, i.size)
  }

  function Infos(insts: seq<Inst>): (r: seq<OpInfo>)
    ensures |r| == |insts|
  {
    seq(|insts|, k requires 0 <= k < |insts| => InfoOf(insts, insts[k]))
  }

  /** The number of operations whose address is stored. */
  function Stored(insts: seq<Inst>): nat {
    if insts == [] then 0 else Stored(insts[..|insts| - 1]) + if insts[|insts| - 1].base.None? then 1 else 0
  }

  lemma {:induction false} StoredIs(insts: seq<Inst>)
    ensures Stored(insts) == |set k | 0 <= k < |insts| && insts[k].base.None?|
    decreases |insts|
  {
    if insts != [] {
      var n := |insts| - 1;
      var s, s' := set k | 0 <= k < |insts| && insts[k].base.None?, set k | 0 <= k < n && insts[..n][k].base.None?;
      StoredIs(insts[..n]);
      assert s == if insts[n].base.None? then s' + {n} else s';
    }
  }

  // ---------- the table describes every run ----------

  /** The addresses the instructions of a block use in a run. */
  predicate Ran(insts: seq<Inst>, ops: seq<Op>) {
    && |ops| == |insts|
    && forall k :: 0 <= k < |insts| ==>
         && ops[k].addr < AddrLimit && ops[k].write == insts[k].write && ops[k].size == insts[k].size
         && (insts[k].base.Some? ==>
               var b := Place(insts, insts[k].base.value);
               b < |ops| && ops[k].addr == ops[b].addr + insts[k].offset)
  }

  /** Every base is among the first 65536 operations. */
  predicate BasesFit(insts: seq<Inst>) {
    forall k :: 0 <= k < |insts| && insts[k].base.Some? ==> Place(insts, insts[k].base.value) < Short
  }

  lemma InShort(b: nat)
    ensures b % Short <= b && (b % Short == b <==> b < Short)
  {
  }

  /** A position in the table is the place of the base, unless that has more than 16 bits. */
  lemma PositionIff(insts: seq<Inst>, k: nat, b: nat)
    requires InstsOk(insts) && k < |insts| && insts[k].base == Some(b)
    ensures Infos(insts)[k].baseOp < k && (insts[Infos(insts)[k].baseOp].id == b <==> Place(insts, b) < Short)
  {
    InShort(Place(insts, b));
    assert Infos(insts)[k].baseOp == Place(insts, b) % Short;
    assert forall j :: 0 <= j < Place(insts, b) ==> insts[j].id != b;
  }

  /** What a block does in a run is as its table entry says. */
  lemma RunDescribed(insts: seq<Inst>, ops: seq<Op>)
    requires InstsOk(insts) && BasesFit(insts) && Ran(insts, ops)
    ensures forall k :: 0 <= k < |ops| ==> OpOk(Infos(insts), ops, k)
  {
    forall k | 0 <= k < |ops| ensures OpOk(Infos(insts), ops, k) {
      if insts[k].base.Some? { InShort(Place(insts, insts[k].base.value)); }
    }
  }

  // ---------- building the list ----------

  lemma PlaceOf(insts: seq<Inst>, k: nat)
    requires InstsOk(insts) && k < |insts|
    ensures Place(insts, insts[k].id) == k
  {
    assert forall j :: 0 <= j < k ==> insts[j].id != insts[k].id;
  }

  /** What the first walk over the block notes about instruction `i`, which is `done` or still ahead. */
  predicate Noted(i: Inst, done: bool, ops: map<nat, nat>, off: map<nat, int>, pos: map<nat, nat>) {
    if done && i.base.Some? then
      && i.id in ops && ops[i.id] == i.base.value && i.id in off && off[i.id] == i.offset
      && i.base.value in pos
    else i.id !in ops
  }

  predicate Marked(insts: seq<Inst>, n: nat, ops: map<nat, nat>, off: map<nat, int>, pos: map<nat, nat>) {
    && (forall k: nat :: k < |insts| ==> Noted(insts[k], k < n, ops, off, pos))
    && forall b :: b in pos ==> pos[b] == 0
  }

  lemma MarkedNext(insts: seq<Inst>, k: nat, ops: map<nat, nat>, off: map<nat, int>, pos: map<nat, nat>)
    requires InstsOk(insts) && k < |insts| && Marked(insts, k, ops, off, pos)
    ensures var i := insts[k];
            match i.base
            case None => Marked(insts, k + 1, ops, off, pos)
            case Some(b) => Marked(insts, k + 1, ops[i.id := b], off[i.id := i.offset], pos[b := 0])
  {
    forall j: nat | j < |insts| && j != k ensures insts[j].id != insts[k].id && Noted(insts[j], j < k, ops, off, pos) {}
    assert Noted(insts[k], false, ops, off, pos);
  }

  /** The first walk: which operations are derived, and from which. */
  method FindSimilar(insts: seq<Inst>)
    returns (memOpCount: nat, dupMemOps: map<nat, nat>, dupMemOpOff: map<nat, int>, dupMemOpPos: map<nat, nat>)
    requires InstsOk(insts)
    ensures memOpCount == Stored(insts) && Marked(insts, |insts|, dupMemOps, dupMemOpOff, dupMemOpPos)
  {
    memOpCount, dupMemOps, dupMemOpOff, dupMemOpPos := 0, map[], map[], map[];
    for k := 0 to |insts|
      invariant memOpCount == Stored(insts[..k]) && Marked(insts, k, dupMemOps, dupMemOpOff, dupMemOpPos)
    {
      var i := insts[k];
      assert insts[..k + 1][..k] == insts[..k];
      MarkedNext(insts, k, dupMemOps, dupMemOpOff, dupMemOpPos);
      if i.base.Some? {
        dupMemOps := dupMemOps[i.id := i.base.value];
        dupMemOpOff := dupMemOpOff[i.id := i.offset];
        dupMemOpPos := dupMemOpPos[i.base.value := 0];
      } else {
        memOpCount := memOpCount + 1;
      }
    }
    assert insts[..|insts|] == insts;
  }

  /** The links followed to the last element of a list, counted in 16 bits. */
  method LastPosition(list: seq<OpInfo>) returns (pos: nat)
    requires list != []
    ensures pos == (|list| - 1) % Short
  {
    pos := 0;
    var t := 0;
    while t + 1 < |list|
      invariant t < |list| && pos == t % Short
    {
      pos := (pos + 1) % Short;
      t := t + 1;
    }
  }

  /** Bases already in the list have their place as position. */
  predicate Positioned(insts: seq<Inst>, n: nat, pos: map<nat, nat>)
    requires n <= |insts|
  {
    forall b :: b in pos ==> pos[b] == if Place(insts, b) < n then Place(insts, b) % Short else 0
  }

  /** Instruction `k` gets its place as position; the first has its position from the start. */
  lemma PlacedNext(insts: seq<Inst>, k: nat, pos: map<nat, nat>, pos': map<nat, nat>)
    requires InstsOk(insts) && k < |insts| && Positioned(insts, k, pos)
    requires pos' == if k > 0 && insts[k].id in pos then pos[insts[k].id := k % Short] else pos
    ensures Positioned(insts, k + 1, pos')
  {
    PlaceOf(insts, k);
    forall b | b in pos && b != insts[k].id ensures Place(insts, b) != k {}
  }

  /** The position of what comes at the end of the list. */
  method EndPosition(list: seq<OpInfo>) returns (pos: nat)
    requires list != []
    ensures pos == |list| % Short
  {
    pos := LastPosition(list);
    pos := (pos + 1) % Short;
  }

  method OpFor(insts: seq<Inst>, k: nat, dupMemOps: map<nat, nat>, dupMemOpOff: map<nat, int>,
               dupMemOpPos: map<nat, nat>, ghost marks: map<nat, nat>) returns (op: OpInfo)
    requires InstsOk(insts) && k < |insts| && Marked(insts, |insts|, dupMemOps, dupMemOpOff, marks)
    requires dupMemOpPos.Keys == marks.Keys && Positioned(insts, k, dupMemOpPos)
    ensures op == InfoOf(insts, insts[k])
  {
    var i := insts[k];
    op := OpInfo(false, 0, 0, i.write, i.size);
    if i.id in dupMemOps {
      op := OpInfo(true, dupMemOpPos[dupMemOps[i.id]], dupMemOpOff[i.id], i.write, i.size);
    }
  }

  /** Instruction `k`, which comes at the end of the list, gets its position if it is a base. */
  method PositionOf(insts: seq<Inst>, k: nat, list: seq<OpInfo>, pos: map<nat, nat>) returns (pos': map<nat, nat>)
    requires InstsOk(insts) && k < |insts| && |list| == k && Positioned(insts, k, pos)
    ensures pos'.Keys == pos.Keys && Positioned(insts, k + 1, pos')
  {
    pos' := pos;
    if list != [] {
      var end := EndPosition(list);
      if insts[k].id in pos { pos' := pos[insts[k].id := end]; }
    }
    PlacedNext(insts, k, pos, pos');
  }

  /** The second walk: each operation is put at the end of the list. */
  method BuildOps(insts: seq<Inst>) returns (ops: seq<OpInfo>, memOpCount: nat)
    requires InstsOk(insts)
    ensures ops == Infos(insts) && memOpCount == Stored(insts)
  {
    var dupMemOps, dupMemOpOff, dupMemOpPos;
    memOpCount, dupMemOps, dupMemOpOff, dupMemOpPos := FindSimilar(insts);
    ghost var marks := dupMemOpPos;
    ops := [];
    for k := 0 to |insts|
      invariant ops == Infos(insts)[..k] && dupMemOpPos.Keys == marks.Keys && Positioned(insts, k, dupMemOpPos)
    {
      var op := OpFor(insts, k, dupMemOps, dupMemOpOff, dupMemOpPos, marks);
      dupMemOpPos := PositionOf(insts, k, ops, dupMemOpPos);
      ops := ops + [op];
    }
  }
}
