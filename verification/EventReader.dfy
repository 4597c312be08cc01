/** The parser of the event file, with its position and the id left out of the file as state. */
module EventReader {
  import opened Common
  import opened Codec

  lemma Distribute(a: nat, b: nat, c: nat)
    ensures a * (b + 256 * c) == a * b + (a * 256) * c
  {
  }

  lemma UnpackTurn(bytes: seq<Byte>, scale: nat, i: nat)
    requires i < |bytes|
    ensures scale * FromLE(bytes[i..]) == scale * bytes[i] + (scale * 256) * FromLE(bytes[i + 1..])
  {
    assert bytes[i..][1..] == bytes[i + 1..];
    Distribute(scale, bytes[i], FromLE(bytes[i + 1..]));
  }

  class EventLib {
    const stream: seq<Byte>
    const bbInfoTable: seq<BlockInfo>
    var sum: nat
    var nextBasicBlockId: int

    constructor (stream: seq<Byte>, table: seq<BlockInfo>)
      ensures Valid() && Rest() == stream && bbInfoTable == table && nextBasicBlockId == -1
    {
      this.stream, bbInfoTable := stream, table;
      sum, nextBasicBlockId := 0, -1;
    }

    ghost predicate Valid()
      reads this
    {
      sum <= |stream|
    }

    ghost function Rest(): seq<Byte>
      reads this
      requires Valid()
    {
      stream[sum..]
    }

    /** What a read of type `T` did, against the parser's function on the bytes that were left. */
    ghost predicate Did<T>(p: Parsed<T>, r: Option<T>)
      reads this
    {
      Valid() && match p case Failed => r == None case Parsed(v, rest) => r == Some(v) && Rest() == rest
    }

    /** A number of `k` bytes, least significant first. */
    method Unpack(k: nat) returns (r: Option<nat>)
      requires Valid()
      modifies this`sum
      ensures Did(ReadNumber(old(Rest()), k), r)
    {
      if |stream| - sum < k { return None; }
      ghost var bytes := stream[sum..sum + k];
      assert Rest()[..k] == bytes && Rest()[k..] == stream[sum + k..];
      assert bytes[0..] == bytes;
      var v: nat, scale: nat, i: nat := 0, 1, 0;
      while i < k
        invariant i <= k && sum == old(sum) && v + scale * FromLE(bytes[i..]) == FromLE(bytes)
      {
        UnpackTurn(bytes, scale, i);
        v := v + scale * stream[sum + i];
        scale := scale * 256;
        i := i + 1;
      }
      assert v == FromLE(bytes);
      sum := sum + k;
      r := Some(v);
    }

    method ReadFields(ws: seq<nat>) returns (r: Option<seq<nat>>)
      requires Valid()
      modifies this`sum
      ensures Did(ParseFields(ws, old(Rest())), r)
    {
      var vs: seq<nat> := [];
      PrependNone(ParseFields(ws, Rest()));
      assert ws[0..] == ws;
      for i := 0 to |ws|
        invariant Valid() && |vs| == i
        invariant Prepend(vs, ParseFields(ws[i..], Rest())) == ParseFields(ws, old(Rest()))
      {
        assert ws[i..][1..] == ws[i + 1..];
        ghost var rest := Rest();
        var v := Unpack(ws[i]);
        if v == None { return None; }
        PrependMore(vs, v.value, ParseFields(ws[i + 1..], Rest()));
        vs := vs + [v.value];
      }
      assert vs + [] == vs;
      r := Some(vs);
    }

    /** The operations of block `id`; addresses of duplicates come from their base. */
    method ReadOps(infos: seq<OpInfo>) returns (r: Option<seq<Op>>)
      requires Valid()
      modifies this`sum
      ensures Did(ParseOps(infos, [], old(Rest())), r)
    {
      var ops: seq<Op> := [];
      for i := 0 to |infos|
        invariant Valid() && |ops| == i
        invariant ParseOps(infos, ops, Rest()) == ParseOps(infos, [], old(Rest()))
      {
        var info := infos[i];
        var addr: nat;
        if info.dup {
          if info.baseOp >= i { return None; }
          addr := (ops[info.baseOp].addr + info.baseOffset) % AddrField;
        } else {
          var a := Unpack(6);
          if a == None { return None; }
          addr := a.value;
        }
        ops := ops + [Op(addr, info.write, info.size)];
      }
      r := Some(ops);
    }

    method ReadBlock(id: nat) returns (r: Option<Event>)
      requires Valid()
      modifies this
      ensures Did(ParseBlock(bbInfoTable, id, old(Rest())), r)
      ensures r.Some? ==> nextBasicBlockId == NextAfter(bbInfoTable, r.value)
    {
      if id >= |bbInfoTable| { return None; }
      nextBasicBlockId := bbInfoTable[id].next;
      var ops := ReadOps(bbInfoTable[id].ops);
      if ops == None { return None; }
      r := Some(Block(id, ops.value));
    }

    /** The next event: read if its id is there, implied if it was left out. */
    method CreateContechEvent() returns (r: Option<Event>)
      requires Valid() && -1 <= nextBasicBlockId
      modifies this
      ensures Did(Parse(bbInfoTable, old(nextBasicBlockId), old(Rest())), r)
      ensures r.Some? ==> nextBasicBlockId == NextAfter(bbInfoTable, r.value)
    {
      if nextBasicBlockId != -1 {
        r := ReadBlock(nextBasicBlockId);
        return;
      }
      if sum == |stream| { return None; }
      var eventType := stream[sum];
      assert Rest()[0] == eventType && Rest()[1..] == stream[sum + 1..];
      sum := sum + 1;
      if eventType < 128 {
        var high := Unpack(2);
        if high == None { return None; }
        r := ReadBlock(eventType + 128 * high.value);
      } else {
        r := ReadOther(eventType);
      }
    }

    method ReadOther(eventType: Byte) returns (r: Option<Event>)
      requires Valid() && eventType >= 128 && nextBasicBlockId == -1
      modifies this`sum
      ensures Did(Parse(bbInfoTable, -1, [eventType] + old(Rest())), r)
      ensures r.Some? ==> r.value.Other?
    {
      ghost var bytes := [eventType] + Rest();
      assert bytes[1..] == Rest();
      var kind := KindOf(eventType);
      if kind == None { return None; }
      var skipped := Unpack(3);
      if skipped == None { return None; }
      var vals := ReadFields(Widths(kind.value));
      if vals == None { return None; }
      r := Some(Other(kind.value, vals.value));
    }
  }

  function Prepend(vs: seq<nat>, p: Parsed<seq<nat>>): Parsed<seq<nat>> {
    match p
    case Failed => Failed
    case Parsed(ws, rest) => Parsed(vs + ws, rest)
  }

  lemma PrependNone(p: Parsed<seq<nat>>)
    ensures Prepend([], p) == p
  {
    if p.Parsed? { assert [] + p.value == p.value; }
  }

  lemma PrependMore(vs: seq<nat>, v: nat, p: Parsed<seq<nat>>)
    ensures Prepend(vs + [v], p) == Prepend(vs, Prepend([v], p))
  {
    if p.Parsed? { assert vs + [v] + p.value == vs + ([v] + p.value); }
  }
}
