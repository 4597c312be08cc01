/** The thread-local buffer that instrumented code writes events to, and the reader of the file. */
module TraceBuffer {
  import opened Codec

  function Own(infos: seq<OpInfo>, i: nat): nat
    requires i <= |infos|
  {
    if i == 0 then 0 else Own(infos, i - 1) + if infos[i - 1].dup then 0 else 1
  }

  lemma {:induction false} FieldsMore(ws: seq<nat>, vs: seq<nat>, w: nat, v: nat)
    requires |ws| == |vs|
    ensures Fields(ws + [w], vs + [v]) == Fields(ws, vs) + LE(v, w)
    decreases |ws|
  {
    if ws == [] {
      assert [w][1..] == [] && [v][1..] == [];
      assert ws + [w] == [w] && vs + [v] == [v];
    } else {
      assert (ws + [w])[1..] == ws[1..] + [w] && (vs + [v])[1..] == vs[1..] + [v];
      FieldsMore(ws[1..], vs[1..], w, v);
    }
  }

  /** Bytes of the own operations before number `i`. */
  function OpPrefix(infos: seq<OpInfo>, ops: seq<Op>, i: nat): (r: seq<Byte>)
    requires |infos| == |ops| && i <= |ops|
    ensures |r| == 6 * Own(infos, i)
  {
    if i == 0 then [] else OpPrefix(infos, ops, i - 1) + if infos[i - 1].dup then [] else LE(ops[i - 1].addr, 6)
  }

  lemma Regroup(a: seq<Byte>, b: seq<Byte>, c: seq<Byte>)
    ensures a + b + c == a + (b + c) && a + [] == a
  {
  }

  lemma {:induction false} OpPrefixRest(infos: seq<OpInfo>, ops: seq<Op>, i: nat)
    requires |infos| == |ops| && i <= |ops|
    ensures OpPrefix(infos, ops, i) + OpBytes(infos, ops, i) == OpBytes(infos, ops, 0)
  {
    if i == 0 {
      assert [] + OpBytes(infos, ops, 0) == OpBytes(infos, ops, 0);
    } else {
      OpPrefixRest(infos, ops, i - 1);
      Regroup(OpPrefix(infos, ops, i - 1), if infos[i - 1].dup then [] else LE(ops[i - 1].addr, 6),
              OpBytes(infos, ops, i));
    }
  }

  class SerialBuffer {
    const data: array<Byte>
    var pos: nat

    constructor (length: nat)
      ensures fresh(data) && data.Length == length && pos == 0
    {
      data := new Byte[length];
      pos := 0;
    }

    /** A store of `k` bytes, least significant first. */
    method Put(p: nat, n: nat, k: nat)
      requires p + k <= data.Length
      modifies data
      ensures data[..p] == old(data[..p]) && data[p..p + k] == LE(n, k)
    {
      var i, rest := 0, n;
      while i < k
        invariant i <= k && data[..p] == old(data[..p])
        invariant LE(n, k) == data[p..p + i] + LE(rest, k - i)
      {
        data[p + i] := rest % 256;
        assert LE(rest, k - i) == [rest % 256] + LE(rest / 256, k - i - 1);
        assert data[p..p + i + 1] == data[p..p + i] + [rest % 256];
        i, rest := i + 1, rest / 256;
      }
    }

    // ---------- basic blocks ----------

    /** The id's store is a byte longer than the id; what follows overwrites the byte. */
    method StoreBasicBlock(bbid: nat, p: nat, elide: bool)
      requires p + 4 <= data.Length
      modifies data
      ensures data[..p + (if elide then 0 else 3)] == old(data[..p]) + if elide then [] else LE(BlockWord(bbid), 3)
    {
      if !elide {
        Put(p, BlockWord(bbid), 4);
        LowBytes(BlockWord(bbid), 4, 3);
        assert data[p..p + 3] == data[p..p + 4][..3];
        assert data[..p + 3] == data[..p] + data[p..p + 3];
      }
    }

    /** Eight bytes are stored for six that count: the next store overwrites the other two. */
    method StoreMemOp(addr: nat, c: nat, r: nat, elide: bool)
      requires r + 6 * c + (if elide then 0 else 3) + 8 <= data.Length
      modifies data
      ensures var q := r + 6 * c + if elide then 0 else 3;
              data[..q + 6] == old(data[..q]) + LE(addr, 6)
    {
      var q := r + 6 * c + if elide then 0 else 3;
      Put(q, addr, 8);
      LowBytes(addr, 8, 6);
      assert data[q..q + 6] == data[q..q + 8][..6];
      assert data[..q + 6] == data[..q] + data[q..q + 6];
    }

    method StoreBasicBlockComplete(numMemOps: nat, p: nat, elide: bool)
      modifies this`pos
      ensures pos == p + 6 * numMemOps + if elide then 0 else 3
    {
      pos := p + numMemOps * 6 + if elide then 0 else 3;
    }

    /** The own operations of a block, in order, after `base`. */
    method StoreOps(infos: seq<OpInfo>, ops: seq<Op>, r: nat, elide: bool, ghost base: seq<Byte>) returns (c: nat)
      requires |infos| == |ops| && |base| == r + (if elide then 0 else 3)
      requires |base| + 6 * Own(infos, |infos|) + 2 <= data.Length && data[..|base|] == base
      modifies data
      ensures c == Own(infos, |infos|)
      ensures data[..|base| + 6 * c] == base + OpPrefix(infos, ops, |infos|)
    {
      c := 0;
      for i := 0 to |infos|
        invariant c == Own(infos, i)
        invariant |base| + 6 * c <= data.Length && data[..|base| + 6 * c] == base + OpPrefix(infos, ops, i)
      {
        OwnGrows(infos, i + 1, |infos|);
        if !infos[i].dup {
          StoreMemOp(ops[i].addr, c, r, elide);
          c := c + 1;
          Regroup(base, OpPrefix(infos, ops, i), LE(ops[i].addr, 6));
        } else {
          Regroup(OpPrefix(infos, ops, i), [], []);
        }
      }
    }

    /** The calls that the pass puts into a block: id, own operations in order, completion. */
    method RunBlock(infos: seq<OpInfo>, elide: bool, e: Event)
      requires e.Block? && |infos| == |e.ops|
      requires pos + |Encode(infos, elide, e)| + 2 <= data.Length && pos + 4 <= data.Length
      modifies this`pos, data
      ensures pos <= data.Length && data[..pos] == old(data[..pos]) + Encode(infos, elide, e)
    {
      ghost var before := data[..pos];
      ghost var head: seq<Byte> := if elide then [] else LE(BlockWord(e.id), 3);
      BlockBytes(infos, elide, e);
      StoreBasicBlock(e.id, pos, elide);
      var c := StoreOps(infos, e.ops, pos, elide, before + head);
      StoreBasicBlockComplete(c, pos, elide);
      Regroup(before, head, OpPrefix(infos, e.ops, |infos|));
    }

    // ---------- other events ----------

    /** One field of an event, the `i`-th counting its code: the bytes after `s` are those of the fields so far. */
    method PutField(p: nat, n: nat, k: nat, ghost s: seq<Byte>, ghost e: Event, ghost i: nat)
      requires e.Other? && |e.vals| == |Widths(e.kind)| && i <= |e.vals|
      requires n == AllVals(e)[i] && k == AllWidths(e)[i]
      requires p + k <= data.Length && data[..p] == s + Fields(AllWidths(e)[..i], AllVals(e)[..i])
      modifies data
      ensures data[..p + k] == s + Fields(AllWidths(e)[..i + 1], AllVals(e)[..i + 1])
    {
      Put(p, n, k);
      NextField(AllWidths(e), AllVals(e), i);
      assert data[..p + k] == data[..p] + data[p..p + k];
      Regroup(s, Fields(AllWidths(e)[..i], AllVals(e)[..i]), LE(n, k));
    }

    /** The event was appended to the bytes `before`. */
    ghost predicate Wrote(before: seq<Byte>, e: Event)
      reads this, data
      requires e.Other? && |e.vals| == |Widths(e.kind)|
    {
      pos <= data.Length && data[..pos] == before + Encode([], false, e)
    }

    /** Nothing is stored for a failed operation. */
    method StoreSync(addr: nat, syncType: nat, success: int, start: nat, end: nat, ordNum: nat)
      requires pos + 40 <= data.Length
      modifies this`pos, data
      ensures success != 0 ==> pos == old(pos) && data[..] == old(data[..])
      ensures success == 0 ==>
                pos == old(pos) + 40 && Wrote(old(data[..pos]), Other(Sync, [start, end, syncType, addr, ordNum]))
    {
      if success != 0 { return; }
      ghost var s, e := data[..pos], Other(Sync, [start, end, syncType, addr, ordNum]);
      PutField(pos, 130, 4, s, e, 0);
      PutField(pos + 4, start, 8, s, e, 1);
      PutField(pos + 12, end, 8, s, e, 2);
      PutField(pos + 20, syncType, 4, s, e, 3);
      PutField(pos + 24, addr, 8, s, e, 4);
      PutField(pos + 32, ordNum, 8, s, e, 5);
      pos := pos + 40;
      AllFields(e);
    }

    method StoreThreadCreate(ptc: nat, skew: nat, start: nat, end: nat)
      requires pos + 32 <= data.Length
      modifies this`pos, data
      ensures pos == old(pos) + 32 && Wrote(old(data[..pos]), Other(Create, [start, end, ptc, skew]))
    {
      ghost var s, e := data[..pos], Other(Create, [start, end, ptc, skew]);
      PutField(pos, 132, 4, s, e, 0);
      PutField(pos + 4, start, 8, s, e, 1);
      PutField(pos + 12, end, 8, s, e, 2);
      PutField(pos + 20, ptc, 4, s, e, 3);
      PutField(pos + 24, skew, 8, s, e, 4);
      pos := pos + 32;
      AllFields(e);
    }

    method StoreMemoryEvent(isAlloc: nat, size: nat, a: nat)
      requires pos + 21 <= data.Length
      modifies this`pos, data
      ensures pos == old(pos) + 21 && Wrote(old(data[..pos]), Other(Memory, [isAlloc, size, a]))
    {
      ghost var s, e := data[..pos], Other(Memory, [isAlloc, size, a]);
      PutField(pos, 129, 4, s, e, 0);
      PutField(pos + 4, isAlloc, 1, s, e, 1);
      PutField(pos + 5, size, 8, s, e, 2);
      PutField(pos + 13, a, 8, s, e, 3);
      pos := pos + 21;
      AllFields(e);
    }

    method StoreBulkMemoryEvent(size: nat, dst: nat, src: nat)
      requires pos + 28 <= data.Length
      modifies this`pos, data
      ensures pos == old(pos) + 28 && Wrote(old(data[..pos]), Other(BulkMemory, [size, dst, src]))
    {
      ghost var s, e := data[..pos], Other(BulkMemory, [size, dst, src]);
      PutField(pos, 135, 4, s, e, 0);
      PutField(pos + 4, size, 8, s, e, 1);
      PutField(pos + 12, dst, 8, s, e, 2);
      PutField(pos + 20, src, 8, s, e, 3);
      pos := pos + 28;
      AllFields(e);
    }

    method StoreBarrier(enter: nat, a: nat, start: nat, end: nat, ordNum: nat)
      requires pos + 37 <= data.Length
      modifies this`pos, data
      ensures pos == old(pos) + 37 && Wrote(old(data[..pos]), Other(BarrierEvent, [enter, start, end, a, ordNum]))
    {
      ghost var s, e := data[..pos], Other(BarrierEvent, [enter, start, end, a, ordNum]);
      PutField(pos, 131, 4, s, e, 0);
      PutField(pos + 4, enter, 1, s, e, 1);
      PutField(pos + 5, start, 8, s, e, 2);
      PutField(pos + 13, end, 8, s, e, 3);
      PutField(pos + 21, a, 8, s, e, 4);
      PutField(pos + 29, ordNum, 8, s, e, 5);
      pos := pos + 37;
      AllFields(e);
    }

    method StoreThreadJoin(ie: nat, id: nat, start: nat, end: nat)
      requires pos + 25 <= data.Length
      modifies this`pos, data
      ensures pos == old(pos) + 25 && Wrote(old(data[..pos]), Other(Join, [ie, start, end, id]))
    {
      ghost var s, e := data[..pos], Other(Join, [ie, start, end, id]);
      PutField(pos, 133, 4, s, e, 0);
      PutField(pos + 4, ie, 1, s, e, 1);
      PutField(pos + 5, start, 8, s, e, 2);
      PutField(pos + 13, end, 8, s, e, 3);
      PutField(pos + 21, id, 4, s, e, 4);
      pos := pos + 25;
      AllFields(e);
    }

    method StoreDelay(start: nat, end: nat)
      requires pos + 20 <= data.Length
      modifies this`pos, data
      ensures pos == old(pos) + 20 && Wrote(old(data[..pos]), Other(Delay, [start, end]))
    {
      ghost var s, e := data[..pos], Other(Delay, [start, end]);
      PutField(pos, 137, 4, s, e, 0);
      PutField(pos + 4, start, 8, s, e, 1);
      PutField(pos + 12, end, 8, s, e, 2);
      pos := pos + 20;
      AllFields(e);
    }

    method StoreMPITransfer(isSend: nat, isBlocking: nat, rank: nat, tag: nat, buf: nat, size: nat, start: nat,
                            end: nat, req: nat)
      requires pos + 54 <= data.Length
      modifies this`pos, data
      ensures pos == old(pos) + 54
      ensures Wrote(old(data[..pos]), Other(Transfer, [isSend, isBlocking, rank, tag, buf, size, start, end, req]))
    {
      ghost var s, e := data[..pos], Other(Transfer, [isSend, isBlocking, rank, tag, buf, size, start, end, req]);
      PutField(pos, 139, 4, s, e, 0);
      PutField(pos + 4, isSend, 1, s, e, 1);
      PutField(pos + 5, isBlocking, 1, s, e, 2);
      PutField(pos + 6, rank, 4, s, e, 3);
      PutField(pos + 10, tag, 4, s, e, 4);
      PutField(pos + 14, buf, 8, s, e, 5);
      PutField(pos + 22, size, 8, s, e, 6);
      PutField(pos + 30, start, 8, s, e, 7);
      PutField(pos + 38, end, 8, s, e, 8);
      PutField(pos + 46, req, 8, s, e, 9);
      pos := pos + 54;
      AllFields(e);
    }

    method StoreMPIWait(req: nat, start: nat, end: nat)
      requires pos + 28 <= data.Length
      modifies this`pos, data
      ensures pos == old(pos) + 28 && Wrote(old(data[..pos]), Other(Wait, [req, start, end]))
    {
      ghost var s, e := data[..pos], Other(Wait, [req, start, end]);
      PutField(pos, 140, 4, s, e, 0);
      PutField(pos + 4, req, 8, s, e, 1);
      PutField(pos + 12, start, 8, s, e, 2);
      PutField(pos + 20, end, 8, s, e, 3);
      pos := pos + 28;
      AllFields(e);
    }
  }

  function AllWidths(e: Event): seq<nat>
    requires e.Other?
  {
    [4] + Widths(e.kind)
  }

  function AllVals(e: Event): seq<nat>
    requires e.Other?
  {
    [Code(e.kind)] + e.vals
  }

  lemma NextField(ws: seq<nat>, vs: seq<nat>, i: nat)
    requires |ws| == |vs| && i < |ws|
    ensures Fields(ws[..i + 1], vs[..i + 1]) == Fields(ws[..i], vs[..i]) + LE(vs[i], ws[i])
  {
    FieldsMore(ws[..i], vs[..i], ws[i], vs[i]);
    assert ws[..i + 1] == ws[..i] + [ws[i]] && vs[..i + 1] == vs[..i] + [vs[i]];
  }

  lemma AllFields(e: Event)
    requires e.Other? && |e.vals| == |Widths(e.kind)|
    ensures var n := |e.vals| + 1;
            Fields(AllWidths(e)[..n], AllVals(e)[..n]) == Encode([], false, e)
  {
    var ws, vs := AllWidths(e), AllVals(e);
    assert ws[..|ws|] == ws && vs[..|vs|] == vs;
    assert ws[1..] == Widths(e.kind) && vs[1..] == e.vals;
  }

  lemma BlockBytes(infos: seq<OpInfo>, elide: bool, e: Event)
    requires e.Block? && |infos| == |e.ops|
    ensures Encode(infos, elide, e) == (if elide then [] else LE(BlockWord(e.id), 3)) + OpPrefix(infos, e.ops, |infos|)
  {
    OpPrefixRest(infos, e.ops, |infos|);
    assert OpPrefix(infos, e.ops, |infos|) + [] == OpPrefix(infos, e.ops, |infos|);
  }

  lemma {:induction false} OwnGrows(infos: seq<OpInfo>, i: nat, j: nat)
    requires i <= j <= |infos|
    ensures Own(infos, i) <= Own(infos, j)
    decreases j
  {
    if i < j { OwnGrows(infos, i, j - 1); }
  }
}
