/** The event stream: what the runtime writes, byte by byte, and what the parser makes of it. */
module Codec {
  import opened Common

  type Byte = x: nat | x < 256

  // ---------- little-endian numbers ----------

  function LE(n: nat, k: nat): (r: seq<Byte>)
    ensures |r| == k
  {
    if k == 0 then [] else [n % 256] + LE(n / 256, k - 1)
  }

  function FromLE(s: seq<Byte>): nat {
    if s == [] then 0 else s[0] + 256 * FromLE(s[1..])
  }

  /** 256 to the power `k`. */
  function Limit(k: nat): (r: nat)
    ensures r > 0
  {
    if k == 0 then 1 else 256 * Limit(k - 1)
  }

  lemma {:induction false} NumberRoundTrip(n: nat, k: nat)
    requires n < Limit(k)
    ensures FromLE(LE(n, k)) == n
  {
    if k > 0 {
      NumberRoundTrip(n / 256, k - 1);
      assert LE(n, k)[1..] == LE(n / 256, k - 1);
    }
  }

  /** The low bytes of a number stored wide are the number stored narrow. */
  lemma {:induction false} LowBytes(n: nat, k: nat, j: nat)
    requires j <= k
    ensures LE(n, k)[..j] == LE(n, j)
  {
    if j > 0 { LowBytes(n / 256, k - 1, j - 1); }
  }

  // ---------- events ----------

  /** A memory operation of a block as its info table describes it: `dup` operations are not stored,
      their address is that of an earlier operation plus an offset. */
  datatype OpInfo = OpInfo(dup: bool, baseOp: nat, baseOffset: int, write: bool, size: nat)

  /** `next` is the block whose id is left out after this one, or -1. */
  datatype BlockInfo = BlockInfo(next: int, ops: seq<OpInfo>)

  datatype Op = Op(addr: nat, write: bool, size: nat)

  datatype Kind = Memory | Sync | BarrierEvent | Create | Join | BulkMemory | Delay | Transfer | Wait

  datatype Event = Block(id: nat, ops: seq<Op>) | Other(kind: Kind, vals: seq<nat>)

  function Code(k: Kind): (r: Byte)
    ensures r > 128
  {
    match k
    case Memory => 129
    case Sync => 130
    case BarrierEvent => 131
    case Create => 132
    case Join => 133
    case BulkMemory => 135
    case Delay => 137
    case Transfer => 139
    case Wait => 140
  }

  function KindOf(code: Byte): Option<Kind> {
    match code
    case 129 => Some(Memory)
    case 130 => Some(Sync)
    case 131 => Some(BarrierEvent)
    case 132 => Some(Create)
    case 133 => Some(Join)
    case 135 => Some(BulkMemory)
    case 137 => Some(Delay)
    case 139 => Some(Transfer)
    case 140 => Some(Wait)
    case _ => None
  }

  /** Widths in bytes of the fields of an event. */
  function Widths(k: Kind): seq<nat> {
    match k
    case Memory => [1, 8, 8]                        // allocated?, size, address
    case Sync => [8, 8, 4, 8, 8]                    // start, end, type, address, ticket
    case BarrierEvent => [1, 8, 8, 8, 8]            // entering?, start, end, address, number
    case Create => [8, 8, 4, 8]                     // start, end, other context, skew
    case Join => [1, 8, 8, 4]                       // exit?, start, end, other context
    case BulkMemory => [8, 8, 8]                    // size, destination, source
    case Delay => [8, 8]                            // start, end
    case Transfer => [1, 1, 4, 4, 8, 8, 8, 8, 8]    // send?, blocking?, rank, tag, buffer, size, start, end, request
    case Wait => [8, 8, 8]                          // request, start, end
  }

  const MaxBlocks: nat := 0x80_0000
  const AddrLimit: nat := 0x1_0000_0000_0000    // addresses have 48 bits in the stream
  const AddrField: nat := 0x4_0000_0000_0000    // and a field of 50 bits in memory

  // ---------- writing ----------

  function Fields(ws: seq<nat>, vs: seq<nat>): seq<Byte>
    requires |ws| == |vs|
  {
    if ws == [] then [] else LE(vs[0], ws[0]) + Fields(ws[1..], vs[1..])
  }

  /** The bytes of the block's own operations from number `i` on. */
  function OpBytes(infos: seq<OpInfo>, ops: seq<Op>, i: nat): seq<Byte>
    requires |infos| == |ops| && i <= |ops|
    decreases |ops| - i
  {
    if i == |ops| then []
    else (if infos[i].dup then [] else LE(ops[i].addr, 6)) + OpBytes(infos, ops, i + 1)
  }

  /** A clear bit, then the id: 7 bits in the first byte and 16 in the next two. */
  function BlockWord(id: nat): nat { (id / 128) % 0x1_0000 * 256 + id % 128 }

  function Encode(infos: seq<OpInfo>, elide: bool, e: Event): seq<Byte>
    requires e.Block? ==> |infos| == |e.ops|
    requires e.Other? ==> |e.vals| == |Widths(e.kind)|
  {
    match e
    case Block(id, ops) => (if elide then [] else LE(BlockWord(id), 3)) + OpBytes(infos, ops, 0)
    case Other(kind, vals) => LE(Code(kind), 4) + Fields(Widths(kind), vals)
  }

  // ---------- parsing ----------

  datatype Parsed<+T> = Parsed(value: T, rest: seq<Byte>) | Failed

  function ReadNumber(bytes: seq<Byte>, k: nat): Parsed<nat> {
    if |bytes| < k then Failed else Parsed(FromLE(bytes[..k]), bytes[k..])
  }

  function ParseFields(ws: seq<nat>, bytes: seq<Byte>): Parsed<seq<nat>> {
    if ws == [] then Parsed([], bytes)
    else
      match ReadNumber(bytes, ws[0])
      case Failed => Failed
      case Parsed(v, rest) =>
        match ParseFields(ws[1..], rest)
        case Failed => Failed
        case Parsed(vs, rest') => Parsed([v] + vs, rest')
  }

  /** The operations of a block from number `|got|` on. */
  function ParseOps(infos: seq<OpInfo>, got: seq<Op>, bytes: seq<Byte>): Parsed<seq<Op>>
    decreases |infos| - |got|
  {
    if |got| >= |infos| then Parsed(got, bytes)
    else
      var info := infos[|got|];
      if info.dup then
        if info.baseOp >= |got| then Failed
        else
          var addr := (got[info.baseOp].addr + info.baseOffset) % AddrField;
          ParseOps(infos, got + [Op(addr, info.write, info.size)], bytes)
      else
        match ReadNumber(bytes, 6)
        case Failed => Failed
        case Parsed(a, rest) => ParseOps(infos, got + [Op(a, info.write, info.size)], rest)
  }

  function ParseBlock(table: seq<BlockInfo>, id: nat, bytes: seq<Byte>): Parsed<Event> {
    if id >= |table| then Failed
    else
      match ParseOps(table[id].ops, [], bytes)
      case Failed => Failed
      case Parsed(ops, rest) => Parsed(Block(id, ops), rest)
  }

  /** One event; `next` is the id left out, or -1. */
  function Parse(table: seq<BlockInfo>, next: int, bytes: seq<Byte>): Parsed<Event> {
    if next >= 0 then ParseBlock(table, next, bytes)
    else if bytes == [] then Failed
    else if bytes[0] < 128 then
      match ReadNumber(bytes[1..], 2)
      case Failed => Failed
      case Parsed(high, rest) => ParseBlock(table, bytes[0] + 128 * high, rest)
    else
      match KindOf(bytes[0])
      case None => Failed
      case Some(kind) =>
        match ReadNumber(bytes[1..], 3)
        case Failed => Failed
        case Parsed(_, rest) =>
          match ParseFields(Widths(kind), rest)
          case Failed => Failed
          case Parsed(vals, rest') => Parsed(Other(kind, vals), rest')
  }

  function NextAfter(table: seq<BlockInfo>, e: Event): int {
    if e.Block? && e.id < |table| then table[e.id].next else -1
  }

  // ---------- round trip ----------

  predicate FieldsOk(ws: seq<nat>, vs: seq<nat>) {
    |ws| == |vs| && forall i :: 0 <= i < |ws| ==> vs[i] < Limit(ws[i])
  }

  /** Operation `i` is as the table says: an address of 48 bits, for a `dup` one derived from its base. */
  predicate OpOk(infos: seq<OpInfo>, ops: seq<Op>, i: nat)
    requires |infos| == |ops| && i < |ops|
  {
    var info := infos[i];
    && ops[i].addr < AddrLimit && ops[i].write == info.write && ops[i].size == info.size
    && (info.dup ==> info.baseOp < i && ops[i].addr == ops[info.baseOp].addr + info.baseOffset)
  }

  predicate EventOk(table: seq<BlockInfo>, e: Event) {
    match e
    case Block(id, ops) =>
      && id < |table| && id < MaxBlocks && |ops| == |table[id].ops|
      && forall i :: 0 <= i < |ops| ==> OpOk(table[id].ops, ops, i)
    case Other(kind, vals) => FieldsOk(Widths(kind), vals)
  }

  lemma ReadBack(n: nat, k: nat, tail: seq<Byte>)
    requires n < Limit(k)
    ensures ReadNumber(LE(n, k) + tail, k) == Parsed(n, tail)
  {
    NumberRoundTrip(n, k);
    assert (LE(n, k) + tail)[..k] == LE(n, k);
    assert (LE(n, k) + tail)[k..] == tail;
  }

  // ---------- layout ----------

  /** Byte number `i` is the `i`-th digit in base 256, the lowest first. */
  lemma {:induction false} ByteOf(n: nat, k: nat, i: nat)
    requires i < k
    ensures LE(n, k)[i] == (n / Limit(i)) % 256
    decreases i
  {
    if i > 0 {
      ByteOf(n / 256, k - 1, i - 1);
      DivTwice(n, Limit(i - 1));
    }
  }

  lemma DivTwice(n: nat, d: nat)
    requires d > 0
    ensures n / 256 / d == n / (256 * d)
  {
    var a, b := n / 256, n % 256;
    var q, r := a / d, a % d;
    assert 256 * (d * q + r) == (256 * d) * q + 256 * r;
    DivModUnique(n, 256 * d, q, 256 * r + b);
  }

  /** The bytes `x` are at place `a`. */
  predicate Has(s: seq<Byte>, a: nat, x: seq<Byte>) { a + |x| <= |s| && s[a..a + |x|] == x }

  lemma HasFirst(p: seq<Byte>, q: seq<Byte>)
    ensures Has(p + q, 0, p)
  {
  }

  lemma HasAfter(p: seq<Byte>, q: seq<Byte>, a: nat, x: seq<Byte>)
    requires Has(q, a, x)
    ensures Has(p + q, |p| + a, x)
  {
    assert (p + q)[|p| + a..|p| + a + |x|] == q[a..a + |x|];
  }

  /** Event code, and first byte and width of each field, in the bytes of an event. */
  function Layout(kind: Kind): (nat, seq<(nat, nat)>) {
    match kind
    case Memory => (129, [(4, 1), (5, 8), (13, 8)])
    case Sync => (130, [(4, 8), (12, 8), (20, 4), (24, 8), (32, 8)])
    case BarrierEvent => (131, [(4, 1), (5, 8), (13, 8), (21, 8), (29, 8)])
    case Create => (132, [(4, 8), (12, 8), (20, 4), (24, 8)])
    case Join => (133, [(4, 1), (5, 8), (13, 8), (21, 4)])
    case BulkMemory => (135, [(4, 8), (12, 8), (20, 8)])
    case Delay => (137, [(4, 8), (12, 8)])
    case Transfer => (139, [(4, 1), (5, 1), (6, 4), (10, 4), (14, 8), (22, 8), (30, 8), (38, 8), (46, 8)])
    case Wait => (140, [(4, 8), (12, 8), (20, 8)])
  }

  /** First byte of field `k`. */
  function Start(ws: seq<nat>, k: nat): nat
    requires k <= |ws|
  {
    if k == 0 then 0 else ws[0] + Start(ws[1..], k - 1)
  }

  lemma {:induction false} FieldAt(ws: seq<nat>, vs: seq<nat>, k: nat)
    requires |ws| == |vs| && k < |ws|
    ensures Has(Fields(ws, vs), Start(ws, k), LE(vs[k], ws[k]))
    decreases k
  {
    var first, rest := LE(vs[0], ws[0]), Fields(ws[1..], vs[1..]);
    if k > 0 {
      FieldAt(ws[1..], vs[1..], k - 1);
      HasAfter(first, rest, Start(ws[1..], k - 1), LE(vs[k], ws[k]));
    } else {
      HasFirst(first, rest);
    }
  }

  lemma {:induction false} FieldsLength(ws: seq<nat>, vs: seq<nat>)
    requires |ws| == |vs|
    ensures |Fields(ws, vs)| == Start(ws, |ws|)
  {
    if ws != [] { FieldsLength(ws[1..], vs[1..]); }
  }

  /** The table of positions is that of the widths. */
  lemma LayoutFits(kind: Kind, k: nat)
    requires k < |Widths(kind)|
    ensures |Layout(kind).1| == |Widths(kind)| && Layout(kind).0 == Code(kind)
    ensures Layout(kind).1[k] == (4 + Start(Widths(kind), k), Widths(kind)[k])
    ensures k == |Widths(kind)| - 1 ==> Start(Widths(kind), k + 1) == Start(Widths(kind), k) + Widths(kind)[k]
  {
    StartNext(Widths(kind), k);
    LayoutStart(kind, k);
  }

  lemma {:induction false} StartNext(ws: seq<nat>, k: nat)
    requires k < |ws|
    ensures Start(ws, k + 1) == Start(ws, k) + ws[k]
    decreases k
  {
    if k > 0 { StartNext(ws[1..], k - 1); }
  }

  lemma {:induction false} LayoutStart(kind: Kind, k: nat)
    requires k < |Widths(kind)|
    ensures |Layout(kind).1| == |Widths(kind)| && Layout(kind).0 == Code(kind)
    ensures Layout(kind).1[k] == (4 + Start(Widths(kind), k), Widths(kind)[k])
    decreases k
  {
    if k > 0 {
      LayoutStart(kind, k - 1);
      StartNext(Widths(kind), k - 1);
    }
  }

  /** In the bytes of an event its code comes first, in four bytes, and each field is where the table says;
      the last field ends the event. */
  lemma EventLayout(kind: Kind, vals: seq<nat>, k: nat)
    requires |vals| == |Widths(kind)| && k < |vals|
    ensures var bytes, places := Encode([], false, Other(kind, vals)), Layout(kind).1;
            && |places| == |vals| && |bytes| == places[|vals| - 1].0 + places[|vals| - 1].1
            && Has(bytes, 0, [Layout(kind).0, 0, 0, 0]) && Has(bytes, places[k].0, LE(vals[k], places[k].1))
  {
    var ws := Widths(kind);
    LayoutFits(kind, k);
    LayoutFits(kind, |ws| - 1);
    CodeBytes(Code(kind));
    FieldsLength(ws, vals);
    FieldAt(ws, vals, k);
    HasFirst(LE(Code(kind), 4), Fields(ws, vals));
    HasAfter(LE(Code(kind), 4), Fields(ws, vals), Start(ws, k), LE(vals[k], ws[k]));
  }

  lemma CodeBytes(code: Byte)
    ensures LE(code, 4) == [code, 0, 0, 0]
  {
    assert LE(0, 3) == [0, 0, 0];
  }

  /** Operations from number `i` up to `k` whose address is stored. */
  function StoredOps(infos: seq<OpInfo>, i: nat, k: nat): set<nat>
    requires k <= |infos|
  {
    set j | i <= j < k && !infos[j].dup
  }

  lemma StoredFirst(infos: seq<OpInfo>, i: nat, k: nat)
    requires i < k <= |infos|
    ensures |StoredOps(infos, i, k)| == |StoredOps(infos, i + 1, k)| + if infos[i].dup then 0 else 1
  {
    var s, s' := StoredOps(infos, i, k), StoredOps(infos, i + 1, k);
    assert i !in s' && s == if infos[i].dup then s' else s' + {i};
  }

  lemma {:induction false} OpBytesAt(infos: seq<OpInfo>, ops: seq<Op>, i: nat, k: nat)
    requires |infos| == |ops| && i <= k < |ops| && !infos[k].dup
    ensures Has(OpBytes(infos, ops, i), 6 * |StoredOps(infos, i, k)|, LE(ops[k].addr, 6))
    decreases k - i
  {
    var first, rest := if infos[i].dup then [] else LE(ops[i].addr, 6), OpBytes(infos, ops, i + 1);
    assert OpBytes(infos, ops, i) == first + rest;
    if i == k {
      assert StoredOps(infos, i, i) == {};
      HasFirst(first, rest);
    } else {
      OpBytesAt(infos, ops, i + 1, k);
      StoredFirst(infos, i, k);
      HasAfter(first, rest, 6 * |StoredOps(infos, i + 1, k)|, LE(ops[k].addr, 6));
    }
  }

  lemma {:induction false} OpBytesLength(infos: seq<OpInfo>, ops: seq<Op>, i: nat)
    requires |infos| == |ops| && i <= |ops|
    ensures |OpBytes(infos, ops, i)| == 6 * |StoredOps(infos, i, |ops|)|
    decreases |ops| - i
  {
    if i == |ops| {
      assert StoredOps(infos, i, i) == {};
    } else {
      OpBytesLength(infos, ops, i + 1);
      StoredFirst(infos, i, |ops|);
    }
  }

  /** The bytes of a block: three for its id unless that is left out, with the first one below 128, then six
      for each operation that is not derived. */
  lemma BlockLayout(infos: seq<OpInfo>, elide: bool, id: nat, ops: seq<Op>)
    requires |infos| == |ops|
    ensures var bytes, head := Encode(infos, elide, Block(id, ops)), if elide then 0 else 3;
            && |bytes| == head + 6 * |StoredOps(infos, 0, |ops|)|
            && (!elide ==> bytes[..3] == [id % 128, id / 128 % 256, id / 128 / 256 % 256])
  {
    if !elide { IdBytes(id); }
    OpBytesLength(infos, ops, 0);
  }

  /** The address of an operation that is not derived comes after those of the earlier ones. */
  lemma StoredOpAt(infos: seq<OpInfo>, elide: bool, id: nat, ops: seq<Op>, k: nat)
    requires |infos| == |ops| && k < |ops| && !infos[k].dup
    ensures Has(Encode(infos, elide, Block(id, ops)), (if elide then 0 else 3) + 6 * |StoredOps(infos, 0, k)|,
                LE(ops[k].addr, 6))
  {
    var head, rest := if elide then [] else LE(BlockWord(id), 3), OpBytes(infos, ops, 0);
    assert Encode(infos, elide, Block(id, ops)) == head + rest;
    OpBytesAt(infos, ops, 0, k);
    HasAfter(head, rest, 6 * |StoredOps(infos, 0, k)|, LE(ops[k].addr, 6));
  }

  lemma IdBytes(id: nat)
    ensures LE(BlockWord(id), 3) == [id % 128, id / 128 % 256, id / 128 / 256 % 256]
  {
    var h, l := (id / 128) % 0x1_0000, id % 128;
    TwoBytes(h);
    LowDigit(h, l);
    LowTwo(id / 128);
  }

  lemma LowTwo(x: nat)
    ensures x % 0x1_0000 % 256 == x % 256 && x % 0x1_0000 / 256 % 256 == x / 256 % 256
  {
    var q, h := x / 0x1_0000, x % 0x1_0000;
    DivModUnique(x, 256, 256 * q + h / 256, h % 256);
    DivModUnique(256 * q + h / 256, 256, q, h / 256);
  }

  lemma LowDigit(h: nat, l: nat)
    requires l < 256
    ensures LE(h * 256 + l, 3) == [l] + LE(h, 2)
  {
    assert (h * 256 + l) % 256 == l && (h * 256 + l) / 256 == h;
  }

  lemma TwoBytes(h: nat)
    ensures LE(h, 2) == [h % 256, h / 256 % 256]
  {
    assert LE(h / 256, 1) == [h / 256 % 256];
  }

  // ---------- round trip of events ----------

  lemma {:induction false} FieldsRoundTrip(ws: seq<nat>, vs: seq<nat>, tail: seq<Byte>)
    requires FieldsOk(ws, vs)
    ensures ParseFields(ws, Fields(ws, vs) + tail) == Parsed(vs, tail)
    decreases |ws|
  {
    if ws == [] {
      assert [] + tail == tail;
    } else {
      var first, others := LE(vs[0], ws[0]), Fields(ws[1..], vs[1..]);
      var rest := others + tail;
      assert (first + others) + tail == first + rest;
      ReadBack(vs[0], ws[0], rest);
      FieldsRoundTrip(ws[1..], vs[1..], tail);
      assert [vs[0]] + vs[1..] == vs;
    }
  }

  lemma AddrFits(a: nat)
    requires a < AddrLimit
    ensures a < Limit(6)
  {
    assert Limit(2) == 0x1_0000;
    assert Limit(4) == 0x1_0000_0000;
  }

  lemma DupStep(infos: seq<OpInfo>, ops: seq<Op>, i: nat, bytes: seq<Byte>)
    requires |infos| == |ops| && i < |ops| && OpOk(infos, ops, i) && infos[i].dup
    ensures ParseOps(infos, ops[..i], bytes) == ParseOps(infos, ops[..i + 1], bytes)
  {
    assert ops[..i] + [ops[i]] == ops[..i + 1];
    assert Op(ops[i].addr % AddrField, infos[i].write, infos[i].size) == ops[i];
  }

  lemma OwnStep(infos: seq<OpInfo>, got: seq<Op>, a: nat, rest: seq<Byte>)
    requires |got| < |infos| && !infos[|got|].dup && a < Limit(6)
    ensures var info := infos[|got|];
            ParseOps(infos, got, LE(a, 6) + rest) == ParseOps(infos, got + [Op(a, info.write, info.size)], rest)
  {
    ReadBack(a, 6, rest);
  }

  lemma {:induction false} OpsRoundTrip(infos: seq<OpInfo>, ops: seq<Op>, i: nat, tail: seq<Byte>)
    requires |infos| == |ops| && i <= |ops| && forall j :: 0 <= j < |ops| ==> OpOk(infos, ops, j)
    ensures ParseOps(infos, ops[..i], OpBytes(infos, ops, i) + tail) == Parsed(ops, tail)
    decreases |ops| - i
  {
    if i == |ops| {
      assert ops[..i] == ops && [] + tail == tail;
    } else {
      OpsRoundTrip(infos, ops, i + 1, tail);
      OneOp(infos, ops, i, tail);
    }
  }

  lemma OneOp(infos: seq<OpInfo>, ops: seq<Op>, i: nat, tail: seq<Byte>)
    requires |infos| == |ops| && i < |ops| && OpOk(infos, ops, i)
    ensures ParseOps(infos, ops[..i], OpBytes(infos, ops, i) + tail) ==
            ParseOps(infos, ops[..i + 1], OpBytes(infos, ops, i + 1) + tail)
  {
    var rest := OpBytes(infos, ops, i + 1);
    if infos[i].dup {
      assert OpBytes(infos, ops, i) == rest;
      DupStep(infos, ops, i, rest + tail);
    } else {
      assert LE(ops[i].addr, 6) + rest + tail == LE(ops[i].addr, 6) + (rest + tail);
      AddrFits(ops[i].addr);
      OwnStep(infos, ops[..i], ops[i].addr, rest + tail);
      assert Op(ops[i].addr, infos[i].write, infos[i].size) == ops[i];
      assert ops[..i] + [ops[i]] == ops[..i + 1];
    }
  }

  lemma WordParts(id: nat)
    requires id < MaxBlocks
    ensures BlockWord(id) % 256 == id % 128 && BlockWord(id) / 256 == id / 128
  {
    var h, l := id / 128, id % 128;
    assert h < 0x1_0000 && BlockWord(id) == h * 256 + l;
  }

  lemma WordBytes(id: nat, tail: seq<Byte>)
    requires id < MaxBlocks
    ensures LE(BlockWord(id), 3) + tail == [id % 128] + (LE(id / 128, 2) + tail)
  {
    var w := BlockWord(id);
    WordParts(id);
    assert LE(w, 3) == [w % 256] + LE(w / 256, 2);
  }

  lemma BlockRoundTrip(table: seq<BlockInfo>, e: Event, tail: seq<Byte>)
    requires EventOk(table, e) && e.Block?
    ensures ParseBlock(table, e.id, OpBytes(table[e.id].ops, e.ops, 0) + tail) == Parsed(e, tail)
  {
    OpsRoundTrip(table[e.id].ops, e.ops, 0, tail);
    assert e.ops[..0] == [];
  }

  lemma IdRoundTrip(table: seq<BlockInfo>, id: nat, body: seq<Byte>)
    requires id < MaxBlocks
    ensures Parse(table, -1, LE(BlockWord(id), 3) + body) == ParseBlock(table, id, body)
  {
    WordBytes(id, body);
    assert Limit(2) == 0x1_0000;
    ReadBack(id / 128, 2, body);
    var bytes := [id % 128] + (LE(id / 128, 2) + body);
    assert bytes[0] == id % 128 && bytes[1..] == LE(id / 128, 2) + body;
  }

  function AsOther(kind: Kind, p: Parsed<seq<nat>>): Parsed<Event> {
    match p
    case Failed => Failed
    case Parsed(vals, rest) => Parsed(Other(kind, vals), rest)
  }

  lemma KindRoundTrip(kind: Kind)
    ensures KindOf(Code(kind)) == Some(kind)
  {
  }

  lemma CodeRead(table: seq<BlockInfo>, kind: Kind, body: seq<Byte>)
    ensures Parse(table, -1, LE(Code(kind), 4) + body) == AsOther(kind, ParseFields(Widths(kind), body))
  {
    var bytes := LE(Code(kind), 4) + body;
    assert LE(Code(kind), 4) == [Code(kind)] + LE(0, 3);
    assert bytes[0] == Code(kind) && bytes[1..] == LE(0, 3) + body;
    ReadBack(0, 3, body);
    KindRoundTrip(kind);
  }

  lemma OtherRoundTrip(table: seq<BlockInfo>, e: Event, tail: seq<Byte>)
    requires EventOk(table, e) && e.Other?
    ensures Parse(table, -1, LE(Code(e.kind), 4) + (Fields(Widths(e.kind), e.vals) + tail)) == Parsed(e, tail)
  {
    CodeRead(table, e.kind, Fields(Widths(e.kind), e.vals) + tail);
    FieldsRoundTrip(Widths(e.kind), e.vals, tail);
  }

  function InfosOf(table: seq<BlockInfo>, e: Event): seq<OpInfo> {
    if e.Block? && e.id < |table| then table[e.id].ops else []
  }

  /** Reading back one event, whatever follows it. */
  lemma EventRoundTrip(table: seq<BlockInfo>, next: int, elide: bool, e: Event, tail: seq<Byte>)
    requires EventOk(table, e) && (if elide then e.Block? && next == e.id else next == -1)
    ensures Parse(table, next, Encode(InfosOf(table, e), elide, e) + tail) == Parsed(e, tail)
  {
    if e.Block? {
      var ops := OpBytes(table[e.id].ops, e.ops, 0);
      BlockRoundTrip(table, e, tail);
      if elide {
        assert [] + ops == ops;
      } else {
        Grouped(LE(BlockWord(e.id), 3), ops, tail);
        IdRoundTrip(table, e.id, ops + tail);
      }
    } else {
      OtherRoundTrip(table, e, tail);
      Grouped(LE(Code(e.kind), 4), Fields(Widths(e.kind), e.vals), tail);
    }
  }

  lemma Grouped(a: seq<Byte>, b: seq<Byte>, c: seq<Byte>)
    ensures a + b + c == a + (b + c)
  {
  }

  // ---------- streams ----------

  /** `elided[id]`: the id of this block is never written. */
  predicate ElidedId(elided: set<nat>, e: Event) { e.Block? && e.id in elided }

  /** An id is left out exactly after the blocks whose table entry names it. */
  ghost predicate Agrees(table: seq<BlockInfo>, elided: set<nat>, next: int, events: seq<Event>)
    decreases |events|
  {
    events == [] ||
    (var e := events[0];
     && EventOk(table, e)
     && (if ElidedId(elided, e) then next == e.id else next == -1)
     && Agrees(table, elided, NextAfter(table, e), events[1..]))
  }

  function EncodeAll(table: seq<BlockInfo>, elided: set<nat>, events: seq<Event>): seq<Byte>
    requires forall e :: e in events ==> EventOk(table, e)
  {
    if events == [] then []
    else
      assert EventOk(table, events[0]);
      Encode(InfosOf(table, events[0]), ElidedId(elided, events[0]), events[0]) + EncodeAll(table, elided, events[1..])
  }

  /** Parses `count` events. */
  function ParseAll(table: seq<BlockInfo>, next: int, count: nat, bytes: seq<Byte>): Parsed<seq<Event>>
    decreases count
  {
    if count == 0 then Parsed([], bytes)
    else
      match Parse(table, next, bytes)
      case Failed => Failed
      case Parsed(e, rest) =>
        match ParseAll(table, NextAfter(table, e), count - 1, rest)
        case Failed => Failed
        case Parsed(es, rest') => Parsed([e] + es, rest')
  }

  lemma {:induction false} AgreesOk(table: seq<BlockInfo>, elided: set<nat>, next: int, events: seq<Event>)
    requires Agrees(table, elided, next, events)
    ensures forall e :: e in events ==> EventOk(table, e)
    decreases |events|
  {
    if events != [] {
      AgreesOk(table, elided, NextAfter(table, events[0]), events[1..]);
      assert events == [events[0]] + events[1..];
    }
  }

  lemma ParseAllStep(table: seq<BlockInfo>, next: int, e: Event, es: seq<Event>, bytes: seq<Byte>, rest: seq<Byte>,
                     tail: seq<Byte>)
    requires Parse(table, next, bytes) == Parsed(e, rest)
    requires ParseAll(table, NextAfter(table, e), |es|, rest) == Parsed(es, tail)
    ensures ParseAll(table, next, |es| + 1, bytes) == Parsed([e] + es, tail)
  {
  }

  /** The parser reads back exactly the events written and consumes exactly their bytes. */
  lemma {:induction false} StreamRoundTrip(table: seq<BlockInfo>, elided: set<nat>, next: int, events: seq<Event>,
                                           tail: seq<Byte>)
    requires Agrees(table, elided, next, events)
    ensures forall e :: e in events ==> EventOk(table, e)
    ensures ParseAll(table, next, |events|, EncodeAll(table, elided, events) + tail) == Parsed(events, tail)
    decreases |events|
  {
    AgreesOk(table, elided, next, events);
    if events == [] {
      assert [] + tail == tail;
    } else {
      var e, es := events[0], events[1..];
      AgreesOk(table, elided, NextAfter(table, e), es);
      var body := EncodeAll(table, elided, es) + tail;
      var head := Encode(InfosOf(table, e), ElidedId(elided, e), e);
      assert EncodeAll(table, elided, events) + tail == head + body;
      EventRoundTrip(table, next, ElidedId(elided, e), e, body);
      StreamRoundTrip(table, elided, NextAfter(table, e), es, tail);
      ParseAllStep(table, next, e, es, head + body, body, tail);
      assert [e] + es == events;
    }
  }
}
