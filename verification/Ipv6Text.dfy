// Reading and printing IPv6 addresses (badvpn/misc/ipaddr6.h; section 2.2 of RFC 4291 and
// section 4 of RFC 5952).

module Ipv6Text {
  import opened Common

  // ---------------------------------------------------------------------------------------
  // Blocks
  // ---------------------------------------------------------------------------------------

  type Block = b: nat | b < 0x10000

  // A block's two bytes, the high one first.
  function BytesOf(blocks: seq<Block>): (r: seq<byte>)
    ensures |r| == 2 * |blocks|
  {
    if blocks == [] then [] else [blocks[0] / 256, blocks[0] % 256] + BytesOf(blocks[1..])
  }

  function BlockAt(addr: seq<byte>, i: nat): Block
    requires 2 * i + 1 < |addr|
  {
    var high: nat, low: nat := addr[2 * i], addr[2 * i + 1];
    high * 256 + low
  }

  function Blocks(addr: seq<byte>): (r: seq<Block>)
    requires |addr| == 16
    ensures |r| == 8
  {
    seq(8, i requires 0 <= i < 8 => BlockAt(addr, i))
  }

  lemma BlockParts(addr: seq<byte>, i: nat)
    requires 2 * i + 1 < |addr|
    ensures BlockAt(addr, i) / 256 == addr[2 * i] && BlockAt(addr, i) % 256 == addr[2 * i + 1]
  {
  }

  lemma {:induction false} BytesAt(blocks: seq<Block>, i: nat)
    requires i < |blocks|
    ensures BytesOf(blocks)[2 * i] == blocks[i] / 256 && BytesOf(blocks)[2 * i + 1] == blocks[i] % 256
  {
    if i > 0 { BytesAt(blocks[1..], i - 1); }
  }

  lemma BytesOfBlocks(addr: seq<byte>)
    requires |addr| == 16
    ensures BytesOf(Blocks(addr)) == addr
  {
    var r := BytesOf(Blocks(addr));
    forall k | 0 <= k < 16 ensures r[k] == addr[k] {
      BytesAt(Blocks(addr), k / 2);
      BlockParts(addr, k / 2);
    }
  }

  lemma {:induction false} BytesCat(a: seq<Block>, b: seq<Block>)
    ensures BytesOf(a + b) == BytesOf(a) + BytesOf(b)
  {
    hide BytesOf;
    if a == [] {
      assert a + b == b;
      NoBytes();
    } else {
      BytesCat(a[1..], b);
      assert (a + b)[1..] == a[1..] + b;
      BytesUnfold(a);
      BytesUnfold(a + b);
    }
  }

  lemma BytesUnfold(blocks: seq<Block>)
    requires blocks != []
    ensures BytesOf(blocks) == [blocks[0] / 256, blocks[0] % 256] + BytesOf(blocks[1..])
  {
  }

  lemma NoBytes()
    ensures BytesOf([]) == []
  {
  }

  // ---------------------------------------------------------------------------------------
  // Reading
  // ---------------------------------------------------------------------------------------

  // decode_hex_digit and decode_decimal_digit
  function HexDigit(c: char): (d: int)
    ensures -1 <= d < 16
  {
    if '0' <= c <= '9' then c as int - '0' as int
    else if 'a' <= c <= 'f' then c as int - 'a' as int + 10
    else if 'A' <= c <= 'F' then c as int - 'A' as int + 10
    else -1
  }

  function DecimalDigit(c: char): (d: int)
    ensures -1 <= d < 10
  {
    if '0' <= c <= '9' then c as int - '0' as int else -1
  }

  // The variables of the parser: blocks stored, place of the double colon, the block being read
  // and whether it has digits yet, and the bytes of the address.
  datatype Reading = Reading(num: nat, compress: Option<nat>, block: Block, empty: bool, bytes: seq<byte>)

  predicate Ready(p: Reading) {
    && |p.bytes| == 16 && p.num <= 7
    && (p.compress.Some? ==> p.compress.value <= p.num)
  }

  function Store(p: Reading): (q: Reading)
    requires Ready(p)
    ensures |q.bytes| == 16 && q.num == p.num + 1
  {
    p.(bytes := p.bytes[2 * p.num := p.block / 256][2 * p.num + 1 := p.block % 256], num := p.num + 1)
  }

  datatype Stop = Fail | AtEnd(p: Reading) | Dotted(i: nat, p: Reading)

  predicate Double(s: string, i: nat)
  {
    i + 1 < |s| && s[i + 1] == ':'
  }

  // What one colon, single or double, does.
  function Colon(s: string, i: nat, p: Reading): (r: Option<Reading>)
    requires Ready(p)
    ensures r.Some? ==> Ready(r.value)
  {
    if i > 0 && (p.empty || p.num == 7) then None
    else if i == 0 && !Double(s, i) then None
    else
      var q := if i > 0 then Store(p).(block := 0, empty := true) else p;
      if Double(s, i) then
        if q.compress.Some? then None else Some(q.(compress := Some(q.num)))
      else Some(q)
  }

  // What one digit does.
  function Digit(c: char, p: Reading): Option<Reading>
  {
    var d := HexDigit(c);
    if d < 0 || p.block > 0xFFFF / 16 || d > 0xFFFF - p.block * 16 then None
    else Some(p.(block := p.block * 16 + d, empty := false))
  }

  // The loop of ipaddr6_parse_ipv6_addr.
  function Scan(s: string, i: nat, p: Reading): (r: Stop)
    requires i <= |s| && Ready(p)
    ensures r.AtEnd? || r.Dotted? ==> Ready(r.p)
    ensures r.Dotted? ==> i <= r.i < |s|
    decreases |s| - i
  {
    if i == |s| then AtEnd(p)
    else if s[i] == '.' then Dotted(i, p)
    else if s[i] == ':' then
      match Colon(s, i, p)
      case None => Fail
      case Some(q) => Scan(s, if Double(s, i) then i + 2 else i + 1, q)
    else
      match Digit(s[i], p)
      case None => Fail
      case Some(q) => Scan(s, i + 1, q)
  }

  // Back to behind the last colon.
  function BackTo(s: string, i: nat): (r: nat)
    requires i <= |s|
    ensures r <= i
  {
    if i == 0 || s[i - 1] == ':' then i else BackTo(s, i - 1)
  }

  // The four numbers at the end of the dotted form.
  function Quad(s: string, i: nat, quad: seq<byte>, b: byte, empty: bool): (r: Option<seq<byte>>)
    requires i <= |s| && |quad| <= 3
    ensures r.Some? ==> |r.value| == 4
    decreases |s| - i
  {
    if i == |s| then if |quad| != 3 || empty then None else Some(quad + [b])
    else if s[i] == '.' then
      if empty || |quad| == 3 then None else Quad(s, i + 1, quad + [b], 0, true)
    else
      var d := DecimalDigit(s[i]);
      if (!empty && b == 0) || d < 0 || b > 255 / 10 || d > 255 - b * 10 then None
      else Quad(s, i + 1, quad, b * 10 + d, false)
  }

  function NoughtBytes(n: nat): (r: seq<byte>)
    ensures |r| == n
  {
    seq(n, i => 0)
  }

  // An address that begins and ends like this, with zeros between.
  function Padded(front: seq<byte>, rear: seq<byte>): (r: seq<byte>)
    requires |front| + |rear| <= 16
    ensures |r| == 16
  {
    front + NoughtBytes(16 - |front| - |rear|) + rear
  }

  // The zeros of the double colon.
  function Expand(num: nat, compress: Option<nat>, bytes: seq<byte>): Option<seq<byte>>
    requires |bytes| == 16 && num <= 8 && (compress.Some? ==> compress.value <= num)
  {
    match compress
    case None => if num != 8 then None else Some(bytes)
    case Some(c) => Some(Padded(bytes[..2 * c], bytes[2 * c..2 * num]))
  }

  function Finish(s: string, r: Stop): Option<seq<byte>>
    requires r.AtEnd? || r.Dotted? ==> Ready(r.p)
    requires r.Dotted? ==> r.i <= |s|
  {
    match r
    case Fail => None
    case AtEnd(p) =>
      if !p.empty then Expand(p.num + 1, p.compress, Store(p).bytes)
      else if p.compress != Some(p.num) then None
      else Expand(p.num, p.compress, p.bytes)
    case Dotted(i, p) =>
      if p.empty || (p.num == 0 && p.compress.None?) then None
      else match Quad(s, BackTo(s, i), [], 0, true)
        case None => None
        case Some(quad) =>
          if 8 - p.num < 2 then None
          else Expand(p.num + 2, p.compress, p.bytes[..2 * p.num] + quad + p.bytes[2 * p.num + 4..])
  }

  // ipaddr6_parse_ipv6_addr; `garbage` is what the address holds before.
  function Parse(s: string, garbage: seq<byte>): Option<seq<byte>>
    requires |garbage| == 16
  {
    Finish(s, Scan(s, 0, Reading(0, None, 0, true, garbage)))
  }

  // ---------------------------------------------------------------------------------------
  // Printing
  // ---------------------------------------------------------------------------------------

  function HexChar(d: nat): (c: char)
    requires d < 16
    ensures HexDigit(c) == d && c != ':' && c != '.'
  {
    if d < 10 then (d + '0' as int) as char else (d - 10 + 'a' as int) as char
  }

  // printf's %x
  function Hex(x: nat): (r: string)
    ensures |r| > 0 && r[0] != ':' && r[0] != '.'
  {
    if x < 16 then [HexChar(x)] else Hex(x / 16) + [HexChar(x % 16)]
  }

  // The blocks, each behind a colon; and the blocks with colons between them.
  function Colons(blocks: seq<Block>): string {
    if blocks == [] then "" else ":" + Hex(blocks[0]) + Colons(blocks[1..])
  }

  function Joined(blocks: seq<Block>): string {
    if blocks == [] then "" else Hex(blocks[0]) + Colons(blocks[1..])
  }

  predicate Zeros(blocks: seq<Block>, start: nat, len: nat) {
    start + len <= |blocks| && forall i :: start <= i < start + len ==> blocks[i] == 0
  }

  // The first of the longest runs of zero blocks.
  ghost predicate FirstLongest(blocks: seq<Block>, start: nat, len: nat) {
    && Zeros(blocks, start, len)
    && forall a: nat, l: nat :: Zeros(blocks, a, l) ==> l < len || (l == len && (l == 0 || start <= a))
  }

  // The text of an address, given the run of zeros to leave out.
  function Text(blocks: seq<Block>, start: nat, len: nat): string
    requires start + len <= |blocks|
  {
    if len > 1 then Joined(blocks[..start]) + "::" + Joined(blocks[start + len..])
    else Joined(blocks)
  }

  // ---------------------------------------------------------------------------------------
  // Round trip
  // ---------------------------------------------------------------------------------------

  // At place i of `s` stands `t`.
  predicate StandsAt(s: string, i: nat, t: string) {
    i + |t| <= |s| && s[i..i + |t|] == t
  }

  lemma StandsSplit(s: string, i: nat, a: string, b: string)
    requires StandsAt(s, i, a + b)
    ensures StandsAt(s, i, a) && StandsAt(s, i + |a|, b)
  {
    assert s[i..i + |a|] == (a + b)[..|a|];
    assert s[i + |a|..i + |a| + |b|] == (a + b)[|a|..];
  }

  // Reading the digits of a block.
  lemma {:induction false} ScanHex(s: string, i: nat, x: Block, p: Reading)
    requires Ready(p) && p.block == 0 && StandsAt(s, i, Hex(x))
    ensures Scan(s, i, p) == Scan(s, i + |Hex(x)|, p.(block := x, empty := false))
    decreases x
  {
    if x < 16 {
      assert s[i] == Hex(x)[0];
    } else {
      var front, last := Hex(x / 16), HexChar(x % 16);
      StandsSplit(s, i, front, [last]);
      ScanHex(s, i, x / 16, p);
      assert s[i + |front|] == [last][0];
      LastDigit(s, i + |front|, x, p);
    }
  }

  lemma LastDigit(s: string, i: nat, x: Block, p: Reading)
    requires Ready(p) && x >= 16 && i < |s| && s[i] == HexChar(x % 16)
    ensures Scan(s, i, p.(block := x / 16, empty := false)) == Scan(s, i + 1, p.(block := x, empty := false))
  {
    var q := p.(block := x / 16, empty := false);
    assert x / 16 * 16 + x % 16 == x;
    assert Digit(s[i], q) == Some(p.(block := x, empty := false));
  }

  function Overwrite(bytes: seq<byte>, at: nat, s: seq<byte>): (r: seq<byte>)
    requires at + |s| <= |bytes|
    ensures |r| == |bytes|
  {
    bytes[..at] + s + bytes[at + |s|..]
  }

  lemma OverwriteTwice(bytes: seq<byte>, at: nat, a: seq<byte>, b: seq<byte>)
    requires at + |a| + |b| <= |bytes|
    ensures Overwrite(Overwrite(bytes, at, a), at + |a|, b) == Overwrite(bytes, at, a + b)
  {
    var x, y := Overwrite(Overwrite(bytes, at, a), at + |a|, b), Overwrite(bytes, at, a + b);
    forall k | 0 <= k < |bytes| ensures x[k] == y[k] {
      if k < at + |a| { assert x[k] == Overwrite(bytes, at, a)[k]; }
    }
  }

  // Storing a run of blocks one after the other.
  function StoreAll(p: Reading, blocks: seq<Block>): (q: Reading)
    requires |p.bytes| == 16 && p.num + |blocks| <= 8
    ensures |q.bytes| == 16 && q.num == p.num + |blocks|
  {
    p.(bytes := Overwrite(p.bytes, 2 * p.num, BytesOf(blocks)), num := p.num + |blocks|)
  }

  lemma StoreNone(p: Reading)
    requires |p.bytes| == 16 && p.num <= 8
    ensures StoreAll(p, []) == p
  {
    assert Overwrite(p.bytes, 2 * p.num, []) == p.bytes;
  }

  lemma StoreOne(p: Reading)
    requires Ready(p)
    ensures Store(p) == StoreAll(p, [p.block])
  {
    assert BytesOf([p.block]) == [p.block / 256, p.block % 256] + BytesOf([]);
    var r := Store(p).bytes;
    var t := p.bytes[..2 * p.num] + [p.block / 256, p.block % 256] + p.bytes[2 * p.num + 2..];
    assert r == t;
  }

  lemma StoreMore(p: Reading, a: seq<Block>, b: seq<Block>)
    requires |p.bytes| == 16 && p.num + |a| + |b| <= 8
    ensures StoreAll(StoreAll(p, a), b) == StoreAll(p, a + b)
  {
    hide Overwrite, BytesOf;
    BytesCat(a, b);
    OverwriteTwice(p.bytes, 2 * p.num, BytesOf(a), BytesOf(b));
  }

  // After these blocks have been read: all but the last are stored.
  function AfterBlocks(p: Reading, blocks: seq<Block>): Reading
    requires |p.bytes| == 16 && blocks != [] && p.num + |blocks| <= 8
  {
    StoreAll(p, blocks[..|blocks| - 1]).(block := blocks[|blocks| - 1], empty := false)
  }

  lemma AfterBlocksStep(p: Reading, x: Block, rest: seq<Block>)
    requires Ready(p) && !p.empty && p.num + 2 + |rest| <= 8
    ensures var q := Store(p).(block := x, empty := false);
      AfterBlocks(p, [p.block, x] + rest) == AfterBlocks(q, [x] + rest)
  {
    hide Overwrite, BytesOf;
    var all, tail := [p.block, x] + rest, [x] + rest;
    var n := |tail| - 1;
    assert all[..n + 1] == [p.block] + tail[..n];
    StoreOne(p);
    StoreMore(p, [p.block], tail[..n]);
    StoreIgnores(Store(p), x, tail[..n]);
  }

  lemma StoreIgnores(p: Reading, x: Block, blocks: seq<Block>)
    requires |p.bytes| == 16 && p.num + |blocks| <= 8
    ensures StoreAll(p.(block := x, empty := false), blocks) == StoreAll(p, blocks).(block := x, empty := false)
  {
  }

  lemma AfterBlocksReady(p: Reading, blocks: seq<Block>)
    requires Ready(p) && blocks != [] && p.num + |blocks| <= 8
    ensures Ready(AfterBlocks(p, blocks))
  {
  }

  // Reading further blocks, each behind a colon.
  lemma {:induction false} ScanColons(s: string, i: nat, blocks: seq<Block>, p: Reading)
    requires Ready(p) && !p.empty && i > 0 && p.num + |blocks| <= 7 && StandsAt(s, i, Colons(blocks))
    ensures var q := AfterBlocks(p, [p.block] + blocks);
      Ready(q) && Scan(s, i, p) == Scan(s, i + |Colons(blocks)|, q)
    decreases |blocks|
  {
    hide Scan, Store, StoreAll, AfterBlocks, StandsAt, Hex;
    AfterBlocksReady(p, [p.block] + blocks);
    if blocks == [] {
      OneBlock(p);
      assert [p.block] + [] == [p.block];
      assert Colons(blocks) == "";
      StandsInside(s, i, "");
    } else {
      var x, rest := blocks[0], blocks[1..];
      ColonsUnfold(blocks);
      StandsSplit(s, i, ":", Hex(x) + Colons(rest));
      StandsSplit(s, i + 1, Hex(x), Colons(rest));
      StandsInside(s, i, Colons(blocks));
      ScanColon(s, i, x, p);
      ScanColons(s, i + 1 + |Hex(x)|, rest, Store(p).(block := x, empty := false));
      AfterBlocksStep(p, x, rest);
      assert [p.block] + blocks == [p.block, x] + rest;
    }
  }

  lemma OneBlock(p: Reading)
    requires Ready(p) && !p.empty
    ensures AfterBlocks(p, [p.block]) == p
  {
    StoreNone(p);
    assert [p.block][..0] == [];
  }

  lemma StandsInside(s: string, i: nat, t: string)
    requires StandsAt(s, i, t)
    ensures i + |t| <= |s|
  {
  }

  lemma ColonsUnfold(blocks: seq<Block>)
    requires blocks != []
    ensures Colons(blocks) == ":" + (Hex(blocks[0]) + Colons(blocks[1..]))
  {
    assert ":" + Hex(blocks[0]) + Colons(blocks[1..]) == ":" + (Hex(blocks[0]) + Colons(blocks[1..]));
  }

  // A single colon and the block behind it.
  lemma ScanColon(s: string, i: nat, x: Block, p: Reading)
    requires Ready(p) && !p.empty && i > 0 && p.num < 7
    requires StandsAt(s, i, ":") && StandsAt(s, i + 1, Hex(x))
    ensures Ready(Store(p)) && Scan(s, i, p) == Scan(s, i + 1 + |Hex(x)|, Store(p).(block := x, empty := false))
  {
    assert s[i] == ":"[0] && s[i + 1] == Hex(x)[0];
    assert !Double(s, i);
    var q := Store(p).(block := 0, empty := true);
    assert Colon(s, i, p) == Some(q);
    ScanHex(s, i + 1, x, q);
  }

  // Reading blocks with colons between them.
  lemma ScanJoined(s: string, i: nat, blocks: seq<Block>, p: Reading)
    requires Ready(p) && p.empty && p.block == 0 && blocks != [] && p.num + |blocks| <= 8
    requires StandsAt(s, i, Joined(blocks))
    ensures i + |Joined(blocks)| <= |s|
    ensures var q := AfterBlocks(p, blocks);
      Ready(q) && Scan(s, i, p) == Scan(s, i + |Joined(blocks)|, q)
  {
    hide Scan, Store, StoreAll, AfterBlocks, StandsAt, Hex, Colons;
    var x, rest := blocks[0], blocks[1..];
    StandsInside(s, i, Joined(blocks));
    StandsSplit(s, i, Hex(x), Colons(rest));
    ScanHex(s, i, x, p);
    ScanColons(s, i + |Hex(x)|, rest, p.(block := x, empty := false));
    assert [x] + rest == blocks;
    FirstRead(p, blocks);
  }

  // It makes no difference that the first block has been read already.
  lemma FirstRead(p: Reading, blocks: seq<Block>)
    requires |p.bytes| == 16 && blocks != [] && p.num + |blocks| <= 8
    ensures AfterBlocks(p.(block := blocks[0], empty := false), blocks) == AfterBlocks(p, blocks)
  {
    hide StoreAll;
    StoreIgnores(p, blocks[0], blocks[..|blocks| - 1]);
  }

  // The double colon behind a block, and at the beginning.
  lemma ScanDouble(s: string, i: nat, p: Reading)
    requires Ready(p) && p.compress.None? && StandsAt(s, i, "::")
    requires if i == 0 then p.empty else !p.empty && p.num < 7
    ensures i + 2 <= |s|
    ensures var q := if i == 0 then p else Store(p).(block := 0, empty := true);
      Ready(q.(compress := Some(q.num))) && Scan(s, i, p) == Scan(s, i + 2, q.(compress := Some(q.num)))
  {
    assert s[i] == "::"[0] && s[i + 1] == "::"[1];
    assert Double(s, i);
    var q := if i == 0 then p else Store(p).(block := 0, empty := true);
    assert Colon(s, i, p) == Some(q.(compress := Some(q.num)));
  }

  function Fresh(garbage: seq<byte>): Reading {
    Reading(0, None, 0, true, garbage)
  }

  // Storing the last block as well.
  lemma StoreLast(p: Reading, blocks: seq<Block>)
    requires Ready(p) && blocks != [] && p.num + |blocks| <= 8
    ensures Ready(AfterBlocks(p, blocks))
    ensures Store(AfterBlocks(p, blocks)) == StoreAll(p, blocks).(block := blocks[|blocks| - 1], empty := false)
  {
    var n := |blocks| - 1;
    var q := StoreAll(p, blocks[..n]);
    StoreOne(q.(block := blocks[n], empty := false));
    StoreIgnores(q, blocks[n], [blocks[n]]);
    StoreMore(p, blocks[..n], [blocks[n]]);
    assert blocks[..n] + [blocks[n]] == blocks;
  }

  // An address printed in full.
  lemma FullRoundTrip(blocks: seq<Block>, garbage: seq<byte>)
    requires |blocks| == 8 && |garbage| == 16
    ensures Parse(Joined(blocks), garbage) == Some(BytesOf(blocks))
  {
    var s, p := Joined(blocks), Fresh(garbage);
    assert s[0..0 + |s|] == s;
    ScanJoined(s, 0, blocks, p);
    StoreLast(p, blocks);
    hide Scan, Joined, AfterBlocks, BytesOf;
    WholeAddress(p, blocks);
  }

  lemma WholeAddress(p: Reading, blocks: seq<Block>)
    requires |p.bytes| == 16 && p.num == 0 && |blocks| == 8
    ensures StoreAll(p, blocks).bytes == BytesOf(blocks) && StoreAll(p, blocks).num == 8
  {
  }

  // Where the parser is behind the double colon.
  function AfterFront(garbage: seq<byte>, front: seq<Block>): (q: Reading)
    requires |garbage| == 16 && |front| <= 7
    ensures |q.bytes| == 16 && q.num == |front|
  {
    StoreAll(Fresh(garbage), front).(block := 0, empty := true, compress := Some(|front|))
  }

  lemma ScanFront(s: string, front: seq<Block>, garbage: seq<byte>)
    requires |garbage| == 16 && |front| <= 7 && StandsAt(s, 0, Joined(front) + "::")
    ensures |Joined(front)| + 2 <= |s| && Ready(AfterFront(garbage, front))
    ensures Scan(s, 0, Fresh(garbage)) == Scan(s, |Joined(front)| + 2, AfterFront(garbage, front))
  {
    hide Scan, StandsAt, Store, StoreAll, BytesOf, AfterBlocks, Joined;
    var p := Fresh(garbage);
    StandsSplit(s, 0, Joined(front), "::");
    if front == [] {
      NothingJoined();
      StoreNone(p);
      ScanDouble(s, 0, p);
    } else {
      ScanJoined(s, 0, front, p);
      StoreLast(p, front);
      NotNothing(front);
      FrontStored(p, front);
      ScanDouble(s, |Joined(front)|, AfterBlocks(p, front));
    }
  }

  lemma NothingJoined()
    ensures Joined([]) == ""
  {
  }

  lemma NotNothing(blocks: seq<Block>)
    requires blocks != []
    ensures |Joined(blocks)| > 0
  {
  }

  lemma FrontStored(p: Reading, front: seq<Block>)
    requires |p.bytes| == 16 && p.num == 0 && p.compress.None? && front != [] && |front| <= 7
    ensures var q := AfterBlocks(p, front); q.compress.None? && !q.empty && q.num < 7
    ensures StoreAll(p, front).num == |front|
  {
  }

  // The end of the text, and the zeros put in.
  lemma ScanRear(s: string, i: nat, front: seq<Block>, rear: seq<Block>, garbage: seq<byte>)
    requires |garbage| == 16 && |front| <= 7 && |front| + |rear| <= 8
    requires i + |Joined(rear)| == |s| && StandsAt(s, i, Joined(rear))
    requires Ready(AfterFront(garbage, front))
    ensures Finish(s, Scan(s, i, AfterFront(garbage, front)))
      == Expand(|front| + |rear|, Some(|front|), StoreAll(AfterFront(garbage, front), rear).bytes)
  {
    var p := AfterFront(garbage, front);
    if rear == [] {
      StoreNone(p);
    } else {
      ScanJoined(s, i, rear, p);
      StoreLast(p, rear);
    }
  }

  lemma ExpandedBytes(front: seq<Block>, rear: seq<Block>, garbage: seq<byte>, b: seq<byte>)
    requires |garbage| == 16 && |front| <= 7 && |front| + |rear| <= 8
    requires b == StoreAll(AfterFront(garbage, front), rear).bytes
    ensures Expand(|front| + |rear|, Some(|front|), b) == Some(Padded(BytesOf(front), BytesOf(rear)))
  {
    hide BytesOf, Padded, StoreAll, AfterFront;
    StoredParts(front, rear, garbage, b);
  }

  lemma StoredParts(front: seq<Block>, rear: seq<Block>, garbage: seq<byte>, b: seq<byte>)
    requires |garbage| == 16 && |front| <= 7 && |front| + |rear| <= 8
    requires b == StoreAll(AfterFront(garbage, front), rear).bytes
    ensures |b| == 16 && b[..2 * |front|] == BytesOf(front) && b[2 * |front|..2 * (|front| + |rear|)] == BytesOf(rear)
  {
    hide BytesOf, Overwrite, StoreAll, AfterFront;
    StoredBytes(front, rear, garbage);
    FirstPart(garbage, BytesOf(front), BytesOf(rear), b, 2 * |front|, 2 * (|front| + |rear|));
  }

  lemma StoredBytes(front: seq<Block>, rear: seq<Block>, garbage: seq<byte>)
    requires |garbage| == 16 && |front| <= 7 && |front| + |rear| <= 8
    ensures StoreAll(AfterFront(garbage, front), rear).bytes
      == Overwrite(Overwrite(garbage, 0, BytesOf(front)), 2 * |front|, BytesOf(rear))
  {
  }

  lemma FirstPart(garbage: seq<byte>, f: seq<byte>, r: seq<byte>, b: seq<byte>, n: nat, m: nat)
    requires |f| == n <= m <= |garbage| && |r| == m - n && b == Overwrite(Overwrite(garbage, 0, f), n, r)
    ensures b[..n] == f && b[n..m] == r
  {
    var a := Overwrite(garbage, 0, f);
    assert a[..n] == f;
  }

  lemma {:induction false} ZeroBytes(blocks: seq<Block>)
    requires forall i :: 0 <= i < |blocks| ==> blocks[i] == 0
    ensures BytesOf(blocks) == NoughtBytes(2 * |blocks|)
  {
    if blocks != [] { ZeroBytes(blocks[1..]); }
  }

  // An address printed with a run of zeros left out.
  lemma ShortRoundTrip(blocks: seq<Block>, start: nat, len: nat, garbage: seq<byte>)
    requires |blocks| == 8 && |garbage| == 16 && len > 1 && Zeros(blocks, start, len)
    ensures Parse(Text(blocks, start, len), garbage) == Some(BytesOf(blocks))
  {
    ZerosFit(blocks, start, len);
    var front, rear := blocks[..start], blocks[start + len..];
    var s := Text(blocks, start, len);
    var head := Joined(front) + "::";
    TextIs(blocks, start, len);
    WholeStands(head, Joined(rear));
    hide Scan, StandsAt, Joined, StoreAll, BytesOf, Finish, Expand, AfterFront, Zeros, Padded, Text;
    ShortReads(s, front, rear, garbage);
    BlocksAround(blocks, start, len);
  }

  lemma ShortReads(s: string, front: seq<Block>, rear: seq<Block>, garbage: seq<byte>)
    requires |garbage| == 16 && |front| <= 7 && |front| + |rear| <= 8
    requires StandsAt(s, 0, Joined(front) + "::") && StandsAt(s, |Joined(front)| + 2, Joined(rear))
    requires |Joined(front)| + 2 + |Joined(rear)| == |s|
    ensures Parse(s, garbage) == Some(Padded(BytesOf(front), BytesOf(rear)))
  {
    hide Scan, StandsAt, Joined, StoreAll, BytesOf, Finish, Expand, AfterFront, Padded;
    ScanFront(s, front, garbage);
    ScanRear(s, |Joined(front)| + 2, front, rear, garbage);
    ExpandedBytes(front, rear, garbage, StoreAll(AfterFront(garbage, front), rear).bytes);
  }

  lemma TextIs(blocks: seq<Block>, start: nat, len: nat)
    requires len > 1 && start + len <= |blocks|
    ensures Text(blocks, start, len) == (Joined(blocks[..start]) + "::") + Joined(blocks[start + len..])
  {
  }

  lemma ZerosFit(blocks: seq<Block>, start: nat, len: nat)
    requires Zeros(blocks, start, len)
    ensures start + len <= |blocks|
  {
  }

  lemma WholeStands(a: string, b: string)
    ensures StandsAt(a + b, 0, a) && StandsAt(a + b, |a|, b)
  {
    assert (a + b)[0..|a|] == a;
    assert (a + b)[|a|..|a| + |b|] == b;
  }

  lemma BlocksAround(blocks: seq<Block>, start: nat, len: nat)
    requires |blocks| == 8 && Zeros(blocks, start, len)
    ensures BytesOf(blocks) == Padded(BytesOf(blocks[..start]), BytesOf(blocks[start + len..]))
  {
    hide BytesOf;
    var front, mid, rear := blocks[..start], blocks[start..start + len], blocks[start + len..];
    assert blocks == (front + mid) + rear;
    BytesCat(front + mid, rear);
    BytesCat(front, mid);
    ZeroBytes(mid);
  }

  // For every address: the printed text, whatever run of zeros the printer leaves out, reads
  // back as the same bytes, whatever the memory that receives them held before.
  lemma RoundTrip(addr: seq<byte>, garbage: seq<byte>, start: nat, len: nat)
    requires |addr| == 16 == |garbage| && Zeros(Blocks(addr), start, len)
    ensures Parse(Text(Blocks(addr), start, len), garbage) == Some(addr)
  {
    BytesOfBlocks(addr);
    if len > 1 {
      ShortRoundTrip(Blocks(addr), start, len, garbage);
    } else {
      FullRoundTrip(Blocks(addr), garbage);
    }
  }

  // ---------------------------------------------------------------------------------------
  // The dotted form
  // ---------------------------------------------------------------------------------------

  function Decimal(x: nat): (r: string) {
    var digit := (x % 10 + '0' as int) as char;
    if x < 10 then [digit] else Decimal(x / 10) + [digit]
  }

  // Numbers with dots between them.
  function Dots(quad: seq<byte>): string
    requires quad != []
  {
    if |quad| == 1 then Decimal(quad[0]) else Decimal(quad[0]) + ("." + Dots(quad[1..]))
  }

  lemma {:induction false} ReadOctet(s: string, i: nat, quad: seq<byte>, x: byte)
    requires |quad| <= 3 && StandsAt(s, i, Decimal(x))
    ensures i + |Decimal(x)| <= |s|
    ensures Quad(s, i, quad, 0, true) == Quad(s, i + |Decimal(x)|, quad, x, false)
    decreases x
  {
    var digit := (x % 10 + '0' as int) as char;
    if x < 10 {
      assert s[i] == Decimal(x)[0];
    } else {
      StandsSplit(s, i, Decimal(x / 10), [digit]);
      ReadOctet(s, i, quad, x / 10);
      var j := i + |Decimal(x / 10)|;
      assert s[j] == [digit][0];
      assert x / 10 * 10 + x % 10 == x;
    }
  }

  lemma DotsAtEnd(s: string, i: nat, quad: seq<byte>)
    requires |quad| == 1 && StandsAt(s, i, Dots(quad))
    ensures StandsAt(s, i, Decimal(quad[0])) && Dots(quad) == Decimal(quad[0])
  {
  }

  lemma DotAt(s: string, i: nat)
    requires StandsAt(s, i, ".")
    ensures i < |s| && s[i] == '.'
  {
    assert s[i] == "."[0];
  }

  lemma {:induction false} QuadReads(s: string, i: nat, done: seq<byte>, quad: seq<byte>)
    requires quad != [] && |done| + |quad| == 4 && StandsAt(s, i, Dots(quad)) && i + |Dots(quad)| == |s|
    ensures Quad(s, i, done, 0, true) == Some(done + quad)
    decreases |quad|
  {
    hide Decimal, StandsAt;
    var x := quad[0];
    if |quad| == 1 {
      DotsAtEnd(s, i, quad);
      ReadOctet(s, i, done, x);
      assert quad == [x];
    } else {
      var rest := Dots(quad[1..]);
      StandsSplit(s, i, Decimal(x), "." + rest);
      ReadOctet(s, i, done, x);
      var j := i + |Decimal(x)|;
      StandsSplit(s, j, ".", rest);
      DotAt(s, j);
      QuadReads(s, j + 1, done + [x], quad[1..]);
      assert done + [x] + quad[1..] == done + quad;
    }
  }

  // What the digits of a decimal number come to when they are read as a block.
  function AsBlock(x: nat): (r: nat)
    ensures (x < 10 ==> r < 0x10) && (x < 100 ==> r < 0x100) && (x < 1000 ==> r < 0x1000)
    ensures x >= 10 ==> r >= 0x10
  {
    if x < 10 then x else AsBlock(x / 10) * 16 + x % 10
  }

  lemma {:induction false} DecimalIsHex(x: nat)
    ensures Decimal(x) == Hex(AsBlock(x))
  {
    if x >= 10 {
      DecimalIsHex(x / 10);
      assert AsBlock(x) / 16 == AsBlock(x / 10) && AsBlock(x) % 16 == x % 10;
    }
  }

  lemma {:induction false} HexNoColon(x: nat, k: nat)
    requires k < |Hex(x)|
    ensures Hex(x)[k] != ':'
  {
    if x >= 16 && k < |Hex(x / 16)| { HexNoColon(x / 16, k); }
  }

  lemma {:induction false} BackToColon(s: string, i: nat, k: nat)
    requires 0 < i <= k <= |s| && s[i - 1] == ':' && forall j :: i <= j < k ==> s[j] != ':'
    ensures BackTo(s, k) == i
  {
    if k > i { BackToColon(s, i, k - 1); }
  }

  // At place i, behind a colon, stand the four numbers, and the parser has read the first of them
  // as a block; it goes back and reads them as what they are.
  lemma DottedEnd(s: string, i: nat, quad: seq<byte>, p: Reading)
    requires |quad| == 4 && 0 < i && StandsAt(s, i, Dots(quad)) && i + |Dots(quad)| == |s| && s[i - 1] == ':'
    requires Ready(p) && !p.empty && p.num <= 6 && (p.num > 0 || p.compress.Some?)
    ensures var k := i + |Decimal(quad[0])|;
      && k < |s|
      && Finish(s, Scan(s, k, p))
        == Expand(p.num + 2, p.compress, p.bytes[..2 * p.num] + quad + p.bytes[2 * p.num + 4..])
  {
    hide Quad, Dots, Expand, StandsAt, Decimal, BackTo;
    FirstNumber(s, i, quad);
    QuadReads(s, i, [], quad);
    assert [] + quad == quad;
  }

  lemma FirstNumber(s: string, i: nat, quad: seq<byte>)
    requires |quad| == 4 && 0 < i && StandsAt(s, i, Dots(quad)) && s[i - 1] == ':'
    ensures var k := i + |Decimal(quad[0])|;
      k < |s| && s[k] == '.' && BackTo(s, k) == i
  {
    hide Hex, Decimal, AsBlock;
    var x := quad[0];
    var k := i + |Decimal(x)|;
    StandsSplit(s, i, Decimal(x), "." + Dots(quad[1..]));
    StandsSplit(s, k, ".", Dots(quad[1..]));
    assert s[k] == "."[0];
    DecimalIsHex(x);
    forall j | i <= j < k ensures s[j] != ':' {
      HexNoColon(AsBlock(x), j - i);
      assert s[j] == Decimal(x)[j - i];
    }
    BackToColon(s, i, k);
  }

  // What is stored when the last block read is the first number.
  lemma StoredBehind(p: Reading, blocks: seq<Block>, y: Block)
    requires |p.bytes| == 16 && p.num + |blocks| <= 6
    ensures AfterBlocks(p, blocks + [y]) == StoreAll(p, blocks).(block := y, empty := false)
  {
    assert (blocks + [y])[..|blocks|] == blocks;
  }

  lemma StandsItself(s: string)
    ensures StandsAt(s, 0, s)
  {
  }

  // Six blocks, printed with colons between them, and four numbers with dots between them.
  lemma FullDotted(blocks: seq<Block>, quad: seq<byte>, garbage: seq<byte>)
    requires |blocks| == 6 && |quad| == 4 && |garbage| == 16
    ensures Parse(Joined(blocks) + ":" + Dots(quad), garbage) == Some(BytesOf(blocks) + quad)
  {
    hide Scan, Finish, StandsAt, Joined, BytesOf, StoreAll, AfterBlocks, Hex, Decimal, Dots, AsBlock;
    var s, p, y := Joined(blocks) + ":" + Dots(quad), Fresh(garbage), AsBlock(quad[0]);
    var head := Joined(blocks) + ":";
    WholeStands(head, Dots(quad));
    StandsItself(s);
    JoinedFirst(s, 0, head, blocks, quad);
    ScanJoined(s, 0, blocks + [y], p);
    StoredBehind(p, blocks, y);
    assert s[|head| - 1] == ':';
    EndReady(p, blocks, y);
    DottedEnd(s, |head|, quad, AfterBlocks(p, blocks + [y]));
    FullBytes(p, blocks, quad);
  }

  // The blocks in front of the dotted numbers and the digits of the first of them are printed blocks.
  lemma JoinedFirst(s: string, i: nat, head: string, blocks: seq<Block>, quad: seq<byte>)
    requires |quad| == 4 && head == (if blocks == [] then "" else Joined(blocks) + ":")
    requires StandsAt(s, i, head + Dots(quad))
    ensures AsBlock(quad[0]) < 0x10000
    ensures var all := blocks + [AsBlock(quad[0])];
      StandsAt(s, i, Joined(all)) && |Joined(all)| == |head| + |Decimal(quad[0])|
  {
    var x := quad[0];
    assert AsBlock(x) < 0x1000;
    hide StandsAt, Joined, Hex, Decimal, AsBlock;
    DecimalIsHex(x);
    FirstIsBlock(head, blocks, x, AsBlock(x));
    assert Dots(quad) == Decimal(x) + ("." + Dots(quad[1..]));
    var tail := "." + Dots(quad[1..]);
    hide Dots;
    Regroup(head, Decimal(x), tail);
    StandsSplit(s, i, head + Decimal(x), tail);
  }

  lemma FirstIsBlock(head: string, blocks: seq<Block>, x: byte, y: Block)
    requires head == (if blocks == [] then "" else Joined(blocks) + ":") && Decimal(x) == Hex(y)
    ensures Joined(blocks + [y]) == head + Decimal(x)
  {
    hide Hex, Decimal, Joined;
    JoinedSnoc(blocks, y);
    if blocks == [] { NothingJoined(); }
  }

  lemma FullBytes(p: Reading, blocks: seq<Block>, quad: seq<byte>)
    requires |p.bytes| == 16 && p.num == 0 && |blocks| == 6 && |quad| == 4
    ensures var b := StoreAll(p, blocks).bytes; b[..12] + quad + b[16..] == BytesOf(blocks) + quad
  {
    hide BytesOf;
    var b := StoreAll(p, blocks).bytes;
    assert b[..12] == BytesOf(blocks) && b[16..] == [];
  }

  // Blocks behind a double colon, and four numbers behind them.
  lemma DottedRear(s: string, i: nat, rear: seq<Block>, quad: seq<byte>, p: Reading)
    requires Ready(p) && p.empty && p.block == 0 && p.compress.Some? && p.num + |rear| <= 6 && |quad| == 4
    requires var last := if rear == [] then "" else Joined(rear) + ":";
      StandsAt(s, i, last + Dots(quad)) && i + |last + Dots(quad)| == |s|
    requires 0 < i && s[i - 1] == ':'
    ensures var n, b := p.num + |rear|, StoreAll(p, rear).bytes;
      Finish(s, Scan(s, i, p)) == Expand(n + 2, p.compress, b[..2 * n] + quad + b[2 * n + 4..])
  {
    hide Scan, Finish, StandsAt, Joined, BytesOf, StoreAll, AfterBlocks, Hex, Decimal, Dots, AsBlock, Expand;
    var last, y := if rear == [] then "" else Joined(rear) + ":", AsBlock(quad[0]);
    JoinedFirst(s, i, last, rear, quad);
    ScanJoined(s, i, rear + [y], p);
    StoredBehind(p, rear, y);
    EndReady(p, rear, y);
    StandsSplit(s, i, last, Dots(quad));
    BeforeNumbers(s, i, last, rear);
    DottedEnd(s, i + |last|, quad, AfterBlocks(p, rear + [y]));
  }

  lemma BeforeNumbers(s: string, i: nat, last: string, rear: seq<Block>)
    requires last == (if rear == [] then "" else Joined(rear) + ":") && StandsAt(s, i, last)
    requires 0 < i <= |s| && s[i - 1] == ':'
    ensures i + |last| <= |s| && s[i + |last| - 1] == ':'
  {
    if rear != [] { assert s[i..i + |last|][|last| - 1] == ':'; }
  }

  // What stands behind a double colon when the address ends in four numbers.
  function DottedTail(rear: seq<Block>, quad: seq<byte>): string
    requires quad != []
  {
    (if rear == [] then "" else Joined(rear) + ":") + Dots(quad)
  }

  // Blocks with a double colon between them, and four numbers behind.
  lemma ShortDotted(front: seq<Block>, rear: seq<Block>, quad: seq<byte>, garbage: seq<byte>)
    requires |front| + |rear| <= 6 && |quad| == 4 && |garbage| == 16
    ensures Parse((Joined(front) + "::") + DottedTail(rear, quad), garbage)
      == Some(Padded(BytesOf(front), BytesOf(rear) + quad))
  {
    hide Scan, Finish, StandsAt, Joined, BytesOf, StoreAll, AfterFront, DottedTail, Expand, Padded, Ready;
    var head, tail := Joined(front) + "::", DottedTail(rear, quad);
    WholeStands(head, tail);
    LastOf(head, tail);
    ShortDottedAt(head + tail, front, rear, quad, garbage);
  }

  lemma LastOf(head: string, tail: string)
    requires head != []
    ensures (head + tail)[|head| - 1] == head[|head| - 1]
  {
  }

  lemma ShortDottedAt(s: string, front: seq<Block>, rear: seq<Block>, quad: seq<byte>, garbage: seq<byte>)
    requires |front| + |rear| <= 6 && |quad| == 4 && |garbage| == 16
    requires StandsAt(s, 0, Joined(front) + "::") && StandsAt(s, |Joined(front)| + 2, DottedTail(rear, quad))
    requires |Joined(front)| + 2 + |DottedTail(rear, quad)| == |s| && s[|Joined(front)| + 1] == ':'
    ensures Parse(s, garbage) == Some(Padded(BytesOf(front), BytesOf(rear) + quad))
  {
    hide Scan, Finish, StandsAt, Joined, BytesOf, StoreAll, AfterFront, Dots, Expand, Padded, Ready;
    ScanFront(s, front, garbage);
    FrontReady(garbage, front);
    DottedRear(s, |Joined(front)| + 2, rear, quad, AfterFront(garbage, front));
    var n, b := |front| + |rear|, StoreAll(AfterFront(garbage, front), rear).bytes;
    StoredParts(front, rear, garbage, b);
    QuadExpands(n, |front|, b, quad, BytesOf(front), BytesOf(rear));
  }

  lemma FrontReady(garbage: seq<byte>, front: seq<Block>)
    requires |garbage| == 16 && |front| <= 6
    ensures var p := AfterFront(garbage, front);
      Ready(p) && p.empty && p.block == 0 && p.compress == Some(|front|) && p.num == |front|
  {
  }

  lemma EndReady(p: Reading, rear: seq<Block>, y: Block)
    requires Ready(p) && p.num + |rear| <= 6
    ensures var q := StoreAll(p, rear).(block := y, empty := false);
      Ready(q) && q.num == p.num + |rear| && q.compress == p.compress
  {
  }

  lemma QuadExpands(n: nat, c: nat, b: seq<byte>, quad: seq<byte>, front: seq<byte>, rear: seq<byte>)
    requires c <= n <= 6 && |b| == 16 && |quad| == 4 && b[..2 * c] == front && b[2 * c..2 * n] == rear
    ensures Expand(n + 2, Some(c), b[..2 * n] + quad + b[2 * n + 4..]) == Some(Padded(front, rear + quad))
  {
    hide Padded;
    QuadBehind(b, 2 * c, 2 * n, quad);
  }

  lemma QuadBehind(b: seq<byte>, f: nat, m: nat, quad: seq<byte>)
    requires f <= m && m + 4 <= |b| && |quad| == 4
    ensures var c := b[..m] + quad + b[m + 4..]; c[..f] == b[..f] && c[f..m + 4] == b[f..m] + quad
  {
  }

  // ---------------------------------------------------------------------------------------
  // The accepted language
  // ---------------------------------------------------------------------------------------

  predicate Digits(g: string) {
    forall i :: 0 <= i < |g| ==> HexDigit(g[i]) >= 0
  }

  function HexValue(g: string): nat {
    if g == "" then 0 else HexValue(g[..|g| - 1]) * 16 + Max(0, HexDigit(g[|g| - 1]))
  }

  // The text of a block: any number of hexadecimal digits, leading zeros included.
  predicate Group(g: string) {
    g != "" && Digits(g) && HexValue(g) < 0x10000
  }

  function GroupValue(g: string): Block
    requires Group(g)
  {
    HexValue(g)
  }

  // What has been read: the groups before and behind the double colon, if there is one, that a colon
  // has ended, and the digits behind them.
  datatype Parts = Parts(front: seq<string>, double: bool, rear: seq<string>, last: string)

  ghost predicate PartsOk(q: Parts) {
    && (forall i :: 0 <= i < |q.front| ==> Group(q.front[i]))
    && (forall i :: 0 <= i < |q.rear| ==> Group(q.rear[i]))
    && (q.last != "" ==> Group(q.last))
    && (!q.double ==> q.rear == []) && |q.front| + |q.rear| <= 7
  }

  function Each(gs: seq<string>): string {
    if gs == [] then "" else Each(gs[..|gs| - 1]) + gs[|gs| - 1] + ":"
  }

  function Middle(q: Parts): string {
    if !q.double then "" else if q.front == [] then "::" else ":"
  }

  // The text of the parts.
  function Spelled(q: Parts): string {
    Each(q.front) + Middle(q) + Each(q.rear) + q.last
  }

  function Values(gs: seq<string>): (r: seq<Block>)
    requires forall i :: 0 <= i < |gs| ==> Group(gs[i])
    ensures |r| == |gs|
  {
    seq(|gs|, i requires 0 <= i < |gs| && Group(gs[i]) => GroupValue(gs[i]))
  }

  // Where the parser is behind them.
  ghost function Behold(q: Parts, garbage: seq<byte>): (p: Reading)
    requires PartsOk(q) && |garbage| == 16
    ensures Ready(p) && p.num == |q.front| + |q.rear| && (p.empty <==> q.last == "")
    ensures p.compress == if q.double then Some(|q.front|) else None
  {
    LastFits(q.last);
    StoreAll(Fresh(garbage), Values(q.front) + Values(q.rear)).(
      compress := if q.double then Some(|q.front|) else None, block := HexValue(q.last), empty := q.last == "")
  }

  lemma LastFits(g: string)
    requires g != "" ==> Group(g)
    ensures HexValue(g) < 0x10000
  {
  }

  const NOTHING := Parts([], false, [], "")

  lemma BeholdNothing(garbage: seq<byte>)
    requires |garbage| == 16
    ensures PartsOk(NOTHING) && Spelled(NOTHING) == "" && Behold(NOTHING, garbage) == Fresh(garbage)
  {
    assert Values([]) + Values([]) == [];
    StoreNone(Fresh(garbage));
  }

  // Only the beginning has no text.
  lemma OnlyNothing(q: Parts)
    requires PartsOk(q) && Spelled(q) == ""
    ensures q == NOTHING
  {
    if q.front != [] { EachEnds(q.front); }
  }

  lemma EachEnds(gs: seq<string>)
    requires gs != []
    ensures |Each(gs)| > 0 && Each(gs)[|Each(gs)| - 1] == ':'
  {
  }

  // The parts with one more digit, and with the last group ended by a colon.
  function WithDigit(q: Parts, c: char): Parts {
    q.(last := q.last + [c])
  }

  function Ended(q: Parts): Parts {
    if q.double then q.(rear := q.rear + [q.last], last := "") else q.(front := q.front + [q.last], last := "")
  }

  lemma EachSnoc(gs: seq<string>, g: string)
    ensures Each(gs + [g]) == Each(gs) + g + ":"
  {
    assert (gs + [g])[..|gs|] == gs;
  }

  lemma SpelledMore(q: Parts, c: char)
    ensures Spelled(WithDigit(q, c)) == Spelled(q) + [c]
  {
    hide Each;
    var a := Each(q.front) + Middle(q) + Each(q.rear);
    Regroup(a, q.last, [c]);
  }

  lemma SpelledEnded(q: Parts)
    requires q.last != "" && (!q.double ==> q.rear == [])
    ensures Spelled(Ended(q)) == Spelled(q) + ":"
    ensures !q.double ==> Spelled(Ended(q).(double := true)) == Spelled(q) + "::"
  {
    EachSnoc(q.front, q.last);
    EachSnoc(q.rear, q.last);
    NoText();
    hide Each;
    if q.double {
      var a := Each(q.front) + Middle(q);
      assert a + (Each(q.rear) + q.last + ":") == a + Each(q.rear) + q.last + ":";
    }
  }

  lemma NoText()
    ensures Each([]) == ""
  {
  }

  // One digit: it is taken unless the value gets too large.
  lemma DigitStep(q: Parts, c: char, garbage: seq<byte>)
    requires PartsOk(q) && |garbage| == 16 && HexDigit(c) >= 0
    ensures PartsOk(WithDigit(q, c)) <==> HexValue(q.last + [c]) < 0x10000
    ensures Digit(c, Behold(q, garbage)) ==
      if PartsOk(WithDigit(q, c)) then Some(Behold(WithDigit(q, c), garbage)) else None
  {
    hide HexValue, StoreAll, Values, HexDigit, Group, Digit;
    LastFits(q.last);
    GroupGrows(q.last, c);
    DigitTakes(c, Behold(q, garbage));
  }

  lemma GroupGrows(g: string, c: char)
    requires HexDigit(c) >= 0 && (g != "" ==> Group(g))
    ensures HexValue(g + [c]) == HexValue(g) * 16 + HexDigit(c)
    ensures Group(g + [c]) <==> HexValue(g + [c]) < 0x10000
  {
    hide HexDigit;
    assert (g + [c])[..|g|] == g && (g + [c])[|g|] == c;
  }

  lemma DigitTakes(c: char, p: Reading)
    requires HexDigit(c) >= 0
    ensures var v := p.block * 16 + HexDigit(c);
      Digit(c, p) == if v < 0x10000 then Some(p.(block := v, empty := false)) else None
  {
    hide HexDigit;
  }

  // One colon behind a group.
  lemma StoreStep(q: Parts, garbage: seq<byte>)
    requires PartsOk(q) && |garbage| == 16 && q.last != "" && |q.front| + |q.rear| < 7
    ensures PartsOk(Ended(q))
    ensures Store(Behold(q, garbage)).(block := 0, empty := true) == Behold(Ended(q), garbage)
  {
    var p, x := Behold(q, garbage), HexValue(q.last);
    StoreOne(p);
    var blocks, base := Values(q.front) + Values(q.rear), Fresh(garbage);
    StoreMore(base, blocks, [x]);
    StoreSets(StoreAll(base, blocks), p.compress, x, p.empty);
    ValuesEnded(q);
    hide StoreAll, Values, HexValue, BytesOf, Overwrite;
    assert HexValue("") == 0 by { NoValue(); }
  }

  lemma NoValue()
    ensures HexValue("") == 0
  {
  }

  lemma ValuesEnded(q: Parts)
    requires PartsOk(q) && q.last != "" && |q.front| + |q.rear| < 7
    ensures PartsOk(Ended(q))
    ensures Values(Ended(q).front) + Values(Ended(q).rear) == Values(q.front) + Values(q.rear) + [HexValue(q.last)]
  {
    hide HexValue;
  }

  lemma StoreSets(p: Reading, c: Option<nat>, x: Block, empty: bool)
    requires |p.bytes| == 16 && p.num <= 7
    ensures StoreAll(p.(compress := c, block := x, empty := empty), [x])
      == StoreAll(p, [x]).(compress := c, block := x, empty := empty)
  {
  }

  // What a colon at the end of the parts does.
  lemma ColonStep(s: string, i: nat, q: Parts, garbage: seq<byte>)
    requires PartsOk(q) && |garbage| == 16 && i < |s| && s[i] == ':' && s[..i] == Spelled(q)
    ensures i > 0 && q.last != "" && |q.front| + |q.rear| < 7 && !(Double(s, i) && q.double) ==>
      var r := Ended(q).(double := q.double || Double(s, i));
      PartsOk(r) && Colon(s, i, Behold(q, garbage)) == Some(Behold(r, garbage))
    ensures i == 0 && Double(s, i) ==>
      var r := NOTHING.(double := true);
      PartsOk(r) && Colon(s, i, Behold(q, garbage)) == Some(Behold(r, garbage))
    ensures i > 0 && (q.last == "" || |q.front| + |q.rear| == 7 || (Double(s, i) && q.double)) ==>
      Colon(s, i, Behold(q, garbage)) == None
    ensures i == 0 && !Double(s, i) ==> Colon(s, i, Behold(q, garbage)) == None
  {
    hide StoreAll, HexValue, Values, Spelled;
    if i == 0 {
      OnlyNothing(q);
    } else if q.last != "" && |q.front| + |q.rear| < 7 {
      StoreStep(q, garbage);
    }
  }

  // From any parts of the text on, the parser stops behind some parts of it.
  lemma {:induction false} ScanTells(s: string, i: nat, q: Parts, garbage: seq<byte>) returns (r: Parts)
    requires PartsOk(q) && |garbage| == 16 && i <= |s| && s[..i] == Spelled(q)
    ensures var stop := Scan(s, i, Behold(q, garbage));
      && (stop.AtEnd? ==> PartsOk(r) && s == Spelled(r) && stop.p == Behold(r, garbage))
      && (stop.Dotted? ==>
            && PartsOk(r) && stop.i < |s| && s[stop.i] == '.' && s[..stop.i] == Spelled(r)
            && stop.p == Behold(r, garbage))
    decreases |s| - i
  {
    hide Behold, PartsOk, Spelled, Colon, Digit;
    r := q;
    if i == |s| {
      assert s[..i] == s;
    } else if s[i] == '.' {
    } else if s[i] == ':' {
      ColonStep(s, i, q, garbage);
      if Colon(s, i, Behold(q, garbage)).Some? {
        var next := if i == 0 then NOTHING.(double := true) else Ended(q).(double := q.double || Double(s, i));
        ColonSpells(s, i, q);
        r := ScanTells(s, if Double(s, i) then i + 2 else i + 1, next, garbage);
      }
    } else if HexDigit(s[i]) >= 0 {
      DigitStep(q, s[i], garbage);
      if PartsOk(WithDigit(q, s[i])) {
        SpelledMore(q, s[i]);
        assert s[..i + 1] == s[..i] + [s[i]];
        r := ScanTells(s, i + 1, WithDigit(q, s[i]), garbage);
      }
    } else {
      assert Digit(s[i], Behold(q, garbage)) == None by { NoDigit(s[i], Behold(q, garbage)); }
    }
  }

  lemma NoDigit(c: char, p: Reading)
    requires HexDigit(c) < 0
    ensures Digit(c, p) == None
  {
  }

  // The text up to behind a colon, single or double.
  lemma ColonSpells(s: string, i: nat, q: Parts)
    requires PartsOk(q) && i < |s| && s[i] == ':' && s[..i] == Spelled(q)
    requires if i == 0 then Double(s, i) else q.last != "" && !(Double(s, i) && q.double)
    ensures var r := if i == 0 then NOTHING.(double := true) else Ended(q).(double := q.double || Double(s, i));
      s[..if Double(s, i) then i + 2 else i + 1] == Spelled(r)
  {
    hide Spelled, Each, Middle, PartsOk;
    ColonsBehind(s, i);
    if i == 0 {
      DoubleSpelled();
    } else {
      EndedOk(q);
      SpelledEnded(q);
      assert Ended(q).(double := q.double) == Ended(q);
    }
  }

  lemma EndedOk(q: Parts)
    requires PartsOk(q)
    ensures !q.double ==> q.rear == []
    ensures Ended(q).double == q.double
  {
  }

  lemma ColonsBehind(s: string, i: nat)
    requires i < |s| && s[i] == ':'
    ensures s[..if Double(s, i) then i + 2 else i + 1] == s[..i] + if Double(s, i) then "::" else ":"
  {
  }

  lemma DoubleSpelled()
    ensures Spelled(NOTHING.(double := true)) == "::"
  {
    NoText();
  }

  // And it gets behind any parts of the text, unless a colon comes next that a double one would
  // swallow.
  lemma {:induction false} ScanReaches(s: string, i: nat, q: Parts, garbage: seq<byte>)
    requires PartsOk(q) && |garbage| == 16 && i <= |s| && s[..i] == Spelled(q)
    requires q.last == "" && i > 0 && i < |s| ==> s[i] != ':'
    ensures Scan(s, 0, Fresh(garbage)) == Scan(s, i, Behold(q, garbage))
    decreases i
  {
    hide Behold, PartsOk, Spelled, Colon, Digit;
    if i == 0 {
      OnlyNothing(q);
      BeholdNothing(garbage);
    } else if q.last != "" {
      LastChar(q);
      var before := q.(last := q.last[..|q.last| - 1]);
      var c := q.last[|q.last| - 1];
      assert WithDigit(before, c) == q;
      SpelledMore(before, c);
      assert s[..i - 1] == s[..i][..i - 1] && s[i - 1] == s[..i][i - 1];
      ScanReaches(s, i - 1, before, garbage);
      DigitStep(before, c, garbage);
    } else {
      var before := Reopened(q);
      var k := ReopenedIs(s, i, q);
      if k > 0 { ScanReaches(s, k, before, garbage); } else { BeholdNothing(garbage); }
      ColonStep(s, k, before, garbage);
    }
  }

  lemma LastChar(q: Parts)
    requires PartsOk(q) && q.last != ""
    ensures var c := q.last[|q.last| - 1]; HexDigit(c) >= 0 && c != ':' && c != '.'
    ensures PartsOk(q.(last := q.last[..|q.last| - 1]))
  {
  }

  // The parts before the last colon, single or double.
  function Reopened(q: Parts): Parts {
    if q.rear != [] then q.(rear := q.rear[..|q.rear| - 1], last := q.rear[|q.rear| - 1])
    else if q.front != [] then Parts(q.front[..|q.front| - 1], false, [], q.front[|q.front| - 1])
    else NOTHING
  }

  lemma ReopenedEnds(q: Parts)
    requires PartsOk(q) && q.last == "" && Reopened(q) != NOTHING
    ensures var r := Reopened(q);
      && PartsOk(r) && r.last != "" && |r.front| + |r.rear| < 7
      && q == (if q.rear == [] && q.double then Ended(r).(double := true) else Ended(r))
      && (q.rear == [] ==> !r.double)
  {
    hide HexValue, Digits;
  }

  lemma OnlyDouble(q: Parts)
    requires PartsOk(q) && q.last == "" && Spelled(q) != "" && Reopened(q) == NOTHING
    ensures q == NOTHING.(double := true)
  {
    NoText();
  }

  lemma ReopenedIs(s: string, i: nat, q: Parts) returns (k: nat)
    requires PartsOk(q) && q.last == "" && 0 < i <= |s| && s[..i] == Spelled(q) && (i < |s| ==> s[i] != ':')
    ensures var r := Reopened(q);
      && PartsOk(r) && k < i && s[k] == ':' && s[..k] == Spelled(r)
      && (k > 0 <==> r.last != "") && (k == 0 ==> r == NOTHING)
      && i == (if Double(s, k) then k + 2 else k + 1)
      && if k == 0 then Double(s, k) && q == NOTHING.(double := true)
         else && |r.front| + |r.rear| < 7 && !(Double(s, k) && r.double)
              && q == Ended(r).(double := r.double || Double(s, k))
  {
    hide PartsOk, Spelled, Reopened, Ended, Double;
    if Reopened(q) == NOTHING {
      k := 0;
      NothingReopened(s, i, q);
    } else {
      k := |Spelled(Reopened(q))|;
      SomeReopened(s, i, q);
    }
  }

  lemma NothingReopened(s: string, i: nat, q: Parts)
    requires PartsOk(q) && q.last == "" && 0 < i <= |s| && s[..i] == Spelled(q) && Reopened(q) == NOTHING
    ensures PartsOk(NOTHING) && s[..0] == Spelled(NOTHING)
    ensures i == 2 && s[0] == ':' && Double(s, 0) && q == NOTHING.(double := true)
  {
    OnlyDouble(q);
    DoubleSpelled();
    hide Spelled;
    assert s[..i][0] == ':' && s[..i][1] == ':' && s[..0] == "";
    BeholdNothing(NoughtBytes(16));
  }

  lemma SomeReopened(s: string, i: nat, q: Parts)
    requires PartsOk(q) && q.last == "" && i <= |s| && s[..i] == Spelled(q) && (i < |s| ==> s[i] != ':')
    requires Reopened(q) != NOTHING
    ensures var r, k := Reopened(q), |Spelled(Reopened(q))|;
      && PartsOk(r) && r.last != "" && 0 < k < i && s[k] == ':' && s[..k] == Spelled(r)
      && i == (if Double(s, k) then k + 2 else k + 1)
      && |r.front| + |r.rear| < 7 && !(Double(s, k) && r.double)
      && q == Ended(r).(double := r.double || Double(s, k))
  {
    hide Spelled, Each, PartsOk, Reopened, Double;
    var r := Reopened(q);
    ReopenedEnds(q);
    EndedOk(r);
    SpelledEnded(r);
    if Spelled(r) == "" { OnlyNothing(r); }
    ColonsEnd(s, i, Spelled(r), q.rear == [] && q.double);
  }

  lemma ColonsEnd(s: string, i: nat, text: string, double: bool)
    requires i <= |s| && s[..i] == text + (if double then "::" else ":") && (i < |s| ==> s[i] != ':')
    ensures var k := |text|;
      && k < i && s[k] == ':' && s[..k] == text && (Double(s, k) <==> double) && i == (if double then k + 2 else k + 1)
  {
    var k := |text|;
    assert s[..k] == s[..i][..k] && s[k] == s[..i][k];
    if double { assert s[k + 1] == s[..i][k + 1]; }
  }

  // --- the ends ---

  lemma StoredBytesAre(blocks: seq<Block>, garbage: seq<byte>)
    requires |blocks| <= 8 && |garbage| == 16
    ensures StoreAll(Fresh(garbage), blocks).bytes == BytesOf(blocks) + garbage[2 * |blocks|..]
  {
    hide BytesOf;
  }

  // The bytes when all blocks are stored.
  lemma ExpandsTo(blocks: seq<Block>, c: Option<nat>, garbage: seq<byte>)
    requires |blocks| <= 8 && |garbage| == 16 && (c.Some? ==> c.value <= |blocks|)
    ensures Expand(|blocks|, c, StoreAll(Fresh(garbage), blocks).bytes) == match c
      case None => if |blocks| == 8 then Some(BytesOf(blocks)) else None
      case Some(k) => Some(Padded(BytesOf(blocks[..k]), BytesOf(blocks[k..])))
  {
    hide BytesOf, StoreAll, Padded;
    StoredBytesAre(blocks, garbage);
    match c
    case None => if |blocks| == 8 { NothingBehind(BytesOf(blocks), garbage); }
    case Some(k) =>
      hide Expand;
      BytesCat(blocks[..k], blocks[k..]);
      assert blocks[..k] + blocks[k..] == blocks;
      var f, r, g := BytesOf(blocks[..k]), BytesOf(blocks[k..]), garbage[2 * |blocks|..];
      PaddedFrom(|blocks|, k, f, r, g);
  }

  lemma NothingBehind(b: seq<byte>, garbage: seq<byte>)
    requires |garbage| == 16
    ensures b + garbage[16..] == b
  {
  }

  lemma PaddedFrom(n: nat, k: nat, f: seq<byte>, r: seq<byte>, g: seq<byte>)
    requires k <= n <= 8 && |f| == 2 * k && |r| == 2 * n - 2 * k && |g| == 16 - 2 * n
    ensures Expand(n, Some(k), f + r + g) == Some(Padded(f, r))
  {
    hide Padded;
    CutBytes(f, r, g);
  }

  lemma CutBytes(a: seq<byte>, b: seq<byte>, c: seq<byte>)
    ensures (a + b + c)[..|a|] == a && (a + b + c)[|a|..|a| + |b|] == b
  {
  }

  // The parts are a whole address without numbers at its end.
  ghost predicate Complete(q: Parts) {
    if q.last == "" then q.double && q.rear == [] else q.double || |q.front| == 7
  }

  ghost function AddressOf(q: Parts): (b: seq<byte>)
    requires PartsOk(q) && Complete(q)
  {
    var last := if q.last == "" then [] else Values([q.last]);
    if q.double then Padded(BytesOf(Values(q.front)), BytesOf(Values(q.rear) + last))
    else BytesOf(Values(q.front) + last)
  }

  lemma FinishAtEnd(s: string, q: Parts, garbage: seq<byte>)
    requires PartsOk(q) && |garbage| == 16
    ensures Finish(s, AtEnd(Behold(q, garbage))) == if Complete(q) then Some(AddressOf(q)) else None
  {
    hide StoreAll, BytesOf, Padded, Expand, HexValue, Values;
    var p, blocks := Behold(q, garbage), Values(q.front) + Values(q.rear);
    if q.last == "" {
      assert blocks[..|q.front|] == Values(q.front) && blocks[|q.front|..] == Values(q.rear);
      ExpandsTo(blocks, p.compress, garbage);
      BeholdBytes(q, garbage);
      assert Values(q.rear) + [] == Values(q.rear);
    } else {
      var all := blocks + [HexValue(q.last)];
      LastValue(q.last);
      assert all[..|q.front|] == Values(q.front) && all[|q.front|..] == Values(q.rear) + Values([q.last]);
      ExpandsTo(all, p.compress, garbage);
      BeholdStored(q, garbage);
      if !q.double { NoValues(); assert all == Values(q.front) + Values([q.last]); }
    }
  }

  lemma LastValue(g: string)
    requires Group(g)
    ensures Values([g]) == [HexValue(g)]
  {
    hide HexValue;
  }

  lemma NoValues()
    ensures Values([]) == []
  {
  }

  lemma BeholdBytes(q: Parts, garbage: seq<byte>)
    requires PartsOk(q) && |garbage| == 16
    ensures Behold(q, garbage).bytes == StoreAll(Fresh(garbage), Values(q.front) + Values(q.rear)).bytes
  {
  }

  lemma BeholdStored(q: Parts, garbage: seq<byte>)
    requires PartsOk(q) && |garbage| == 16 && q.last != ""
    ensures Store(Behold(q, garbage)).bytes
      == StoreAll(Fresh(garbage), Values(q.front) + Values(q.rear) + [HexValue(q.last)]).bytes
  {
    var p, x := Behold(q, garbage), HexValue(q.last);
    StoreOne(p);
    var blocks, base := Values(q.front) + Values(q.rear), Fresh(garbage);
    StoreMore(base, blocks, [x]);
    StoreSets(StoreAll(base, blocks), p.compress, x, p.empty);
    hide StoreAll, Values, HexValue, BytesOf, Overwrite;
  }

  // --- numbers at the end ---

  // Whatever four numbers are read, they are what is written there.
  lemma {:induction false} QuadTells(s: string, i: nat, done: seq<byte>, b: byte, empty: bool) returns (rest: seq<byte>)
    requires i <= |s| && |done| <= 3 && (empty ==> b == 0)
    requires Quad(s, i, done, b, empty).Some?
    ensures rest != [] && Quad(s, i, done, b, empty).value == done + rest
    ensures (if empty then "" else Decimal(b)) + s[i..] == Dots(rest)
    decreases |s| - i
  {
    hide Dots, Decimal;
    if i == |s| {
      rest := [b];
      OneNumber(b);
      assert s[i..] == "";
    } else if s[i] == '.' {
      var more := QuadTells(s, i + 1, done + [b], 0, true);
      rest := [b] + more;
      Regroup(done, [b], more);
      MoreNumbers(b, more);
      assert s[i..] == "." + s[i + 1..];
    } else {
      var d := DecimalDigit(s[i]);
      rest := QuadTells(s, i + 1, done, b * 10 + d, false);
      DecimalSnoc(b, d);
      assert s[i..] == [s[i]] + s[i + 1..];
    }
  }

  lemma OneNumber(b: byte)
    ensures Dots([b]) == Decimal(b)
  {
  }

  lemma MoreNumbers(b: byte, more: seq<byte>)
    requires more != []
    ensures Dots([b] + more) == Decimal(b) + ("." + Dots(more))
  {
    assert ([b] + more)[1..] == more;
  }

  lemma DecimalSnoc(b: nat, d: nat)
    requires d < 10
    ensures Decimal(b * 10 + d) == (if b == 0 then "" else Decimal(b)) + [(d + '0' as int) as char]
  {
    assert (b * 10 + d) / 10 == b && (b * 10 + d) % 10 == d;
  }

  // The digits of an octet are those of a group.
  lemma {:induction false} DecimalIsGroup(x: nat)
    requires x < 1000
    ensures Group(Decimal(x)) && HexValue(Decimal(x)) < (if x < 10 then 0x10 else if x < 100 then 0x100 else 0x1000)
    decreases x
  {
    var g := Decimal(x);
    if x >= 10 {
      DecimalIsGroup(x / 10);
      assert g[..|g| - 1] == Decimal(x / 10);
    } else {
      assert g[..0] == "";
      NoValue();
    }
  }

  // The parts end in a colon, and there is room for four bytes.
  ghost predicate BeforeQuad(q: Parts) {
    && q.last == "" && (q.double || |q.front| == 6)
    && |q.front| + |q.rear| <= 6 && Spelled(q) != ""
  }

  ghost function QuadAddressOf(q: Parts, quad: seq<byte>): seq<byte>
    requires PartsOk(q) && BeforeQuad(q) && |quad| == 4
  {
    if q.double then Padded(BytesOf(Values(q.front)), BytesOf(Values(q.rear)) + quad)
    else BytesOf(Values(q.front)) + quad
  }

  lemma EndsInColon(q: Parts)
    requires PartsOk(q) && q.last == "" && Spelled(q) != ""
    ensures Spelled(q)[|Spelled(q)| - 1] == ':'
  {
    if q.rear != [] { EachEnds(q.rear); } else if q.front != [] { EachEnds(q.front); }
  }

  // At a dot the parser goes back to the beginning of the digits before it.
  lemma BackToDigits(s: string, i: nat, q: Parts)
    requires PartsOk(q) && i <= |s| && s[..i] == Spelled(q) && Spelled(q.(last := "")) != ""
    ensures BackTo(s, i) == |Spelled(q.(last := ""))| == i - |q.last|
  {
    hide Spelled, Each, HexValue;
    SpelledHead(q);
    HeadOk(q);
    EndsInColon(q.(last := ""));
    NoColonIn(q);
    BackToHead(s, i, Spelled(q.(last := "")), q.last);
  }

  lemma NoColonIn(q: Parts)
    requires PartsOk(q)
    ensures forall j :: 0 <= j < |q.last| ==> q.last[j] != ':'
  {
    hide HexValue;
  }

  lemma BackToHead(s: string, i: nat, head: string, last: string)
    requires i <= |s| && s[..i] == head + last && head != "" && head[|head| - 1] == ':'
    requires forall j :: 0 <= j < |last| ==> last[j] != ':'
    ensures BackTo(s, i) == |head| == i - |last|
  {
    var k := |head|;
    assert s[k - 1] == s[..i][k - 1];
    forall j | k <= j < i ensures s[j] != ':' { assert s[j] == s[..i][j]; }
    BackToColon(s, k, i);
  }

  // How the dotted form ends.
  lemma QuadExpandsTo(q: Parts, quad: seq<byte>, garbage: seq<byte>)
    requires PartsOk(q) && |garbage| == 16 && |quad| == 4 && |q.front| + |q.rear| <= 6
    ensures var p, n := Behold(q, garbage), |q.front| + |q.rear|;
      Expand(n + 2, p.compress, p.bytes[..2 * n] + quad + p.bytes[2 * n + 4..]) ==
      if q.double then Some(Padded(BytesOf(Values(q.front)), BytesOf(Values(q.rear)) + quad))
      else if |q.front| == 6 then Some(BytesOf(Values(q.front)) + quad) else None
  {
    hide StoreAll, BytesOf, Padded, Values, HexValue;
    var f, r := Values(q.front), Values(q.rear);
    BeholdBytes(q, garbage);
    StoredBytesAre(f + r, garbage);
    BytesCat(f, r);
    QuadBytes(BytesOf(f), BytesOf(r), garbage[2 * |f + r|..], quad);
    if !q.double { NoValues(); NoBytes(); }
  }

  lemma QuadBytes(f: seq<byte>, r: seq<byte>, g: seq<byte>, quad: seq<byte>)
    requires |quad| == 4 && |g| >= 4
    ensures var b, n := f + r + g, |f| + |r|;
      var c := b[..n] + quad + b[n + 4..];
      && c == f + r + quad + g[4..] && c[..|f|] == f && c[|f|..n + 4] == r + quad
      && (|g| == 4 && r == [] ==> c == f + quad)
  {
    var b, n := f + r + g, |f| + |r|;
    assert b[..n] == f + r && b[n + 4..] == g[4..];
    Regroup(f, r, quad);
  }

  // A text that stops at a dot is accepted exactly when it is parts and four numbers behind them.
  lemma FinishDotted(s: string, i: nat, q: Parts, garbage: seq<byte>) returns (quad: seq<byte>)
    requires PartsOk(q) && |garbage| == 16 && i < |s| && s[i] == '.' && s[..i] == Spelled(q)
    requires Finish(s, Dotted(i, Behold(q, garbage))).Some?
    ensures |quad| == 4 && PartsOk(q.(last := "")) && BeforeQuad(q.(last := ""))
    ensures s == Spelled(q.(last := "")) + Dots(quad)
    ensures Finish(s, Dotted(i, Behold(q, garbage))).value == QuadAddressOf(q.(last := ""), quad)
  {
    hide Behold, Spelled, Quad, Dots, BackTo, Finish, PartsOk, BeforeQuad, QuadAddressOf;
    DottedAddress(s, i, q, garbage);
    quad := QuadTells(s, BackTo(s, i), [], 0, true);
    assert [] + quad == quad;
    NumbersBehind(s, i, q, quad);
  }

  lemma DottedAddress(s: string, i: nat, q: Parts, garbage: seq<byte>)
    requires PartsOk(q) && |garbage| == 16 && i <= |s| && Finish(s, Dotted(i, Behold(q, garbage))).Some?
    ensures PartsOk(q.(last := "")) && BeforeQuad(q.(last := "")) && Spelled(q.(last := "")) != ""
    ensures var quad := Quad(s, BackTo(s, i), [], 0, true);
      && quad.Some?
      && Finish(s, Dotted(i, Behold(q, garbage))).value == QuadAddressOf(q.(last := ""), quad.value)
  {
    hide Behold, Spelled, Expand, Quad, BackTo, Finish, PartsOk, BeforeQuad, QuadAddressOf;
    DottedFinish(s, i, Behold(q, garbage));
    HeadBegins(q);
    HeadIsBefore(q, Quad(s, BackTo(s, i), [], 0, true).value, garbage);
  }

  lemma NumbersBehind(s: string, i: nat, q: Parts, quad: seq<byte>)
    requires PartsOk(q) && i <= |s| && s[..i] == Spelled(q) && Spelled(q.(last := "")) != ""
    requires quad != [] && "" + s[BackTo(s, i)..] == Dots(quad)
    ensures s == Spelled(q.(last := "")) + Dots(quad)
  {
    hide Spelled, PartsOk, Dots, BackTo;
    BackToDigits(s, i, q);
    SpelledHead(q);
    HeadAndTail(s, i, Spelled(q.(last := "")), q.last, Dots(quad));
  }

  // The parts in front of the numbers, and the address they make with the numbers.
  lemma HeadIsBefore(q: Parts, quad: seq<byte>, garbage: seq<byte>)
    requires PartsOk(q) && |garbage| == 16 && |quad| == 4 && |q.front| + |q.rear| <= 6
    requires |q.front| + |q.rear| > 0 || q.double
    ensures var head, p, n := q.(last := ""), Behold(q, garbage), |q.front| + |q.rear|;
      var done := Expand(n + 2, p.compress, p.bytes[..2 * n] + quad + p.bytes[2 * n + 4..]);
      && PartsOk(head) && (done.Some? <==> BeforeQuad(head))
      && (done.Some? ==> done.value == QuadAddressOf(head, quad))
  {
    hide Spelled, Padded, BytesOf, Values, Behold, Expand;
    HeadBegins(q);
    QuadExpandsTo(q, quad, garbage);
  }

  lemma HeadOk(q: Parts)
    requires PartsOk(q)
    ensures PartsOk(q.(last := ""))
  {
    hide Group;
  }

  lemma HeadAndTail(s: string, i: nat, head: string, last: string, tail: string)
    requires i <= |s| && s[..i] == head + last && "" + s[|head|..] == tail
    ensures s == head + tail
  {
    assert s == s[..|head|] + s[|head|..];
    assert s[..|head|] == s[..i][..|head|];
  }

  // What the dotted form needs to be accepted.
  lemma DottedFinish(s: string, i: nat, p: Reading)
    requires Ready(p) && i <= |s| && Finish(s, Dotted(i, p)).Some?
    ensures !p.empty && (p.num > 0 || p.compress.Some?) && p.num <= 6
    ensures var quad := Quad(s, BackTo(s, i), [], 0, true);
      && quad.Some?
      && Finish(s, Dotted(i, p)) ==
        Expand(p.num + 2, p.compress, p.bytes[..2 * p.num] + quad.value + p.bytes[2 * p.num + 4..])
  {
    hide Quad, BackTo, Expand;
  }

  // Without blocks and without a double colon there is nothing in front of the last digits.
  lemma HeadBegins(q: Parts)
    requires PartsOk(q)
    ensures Spelled(q.(last := "")) == "" <==> |q.front| + |q.rear| == 0 && !q.double
  {
    if q.front != [] { EachEnds(q.front); }
    assert Each([]) == "";
  }

  lemma SpelledHead(q: Parts)
    ensures Spelled(q) == Spelled(q.(last := "")) + q.last
  {
  }

  // --- the language ---

  // `s` is the text of the address `b`: groups with colons between them, of which one may be double,
  // and perhaps four numbers with dots between them at the end.
  ghost predicate IsTextOf(s: string, b: seq<byte>) {
    || (exists q: Parts :: PlainText(s, q, b))
    || (exists q: Parts, quad: seq<byte> :: QuadText(s, q, quad, b))
  }

  ghost predicate PlainText(s: string, q: Parts, b: seq<byte>) {
    PartsOk(q) && Complete(q) && s == Spelled(q) && b == AddressOf(q)
  }

  ghost predicate QuadText(s: string, q: Parts, quad: seq<byte>, b: seq<byte>) {
    |quad| == 4 && PartsOk(q) && BeforeQuad(q) && s == Spelled(q) + Dots(quad) && b == QuadAddressOf(q, quad)
  }

  // The parser accepts exactly these texts, and reads what they are the text of, whatever the memory
  // that receives the address held before.
  lemma ParsesExactly(s: string, garbage: seq<byte>, b: seq<byte>)
    requires |garbage| == 16
    ensures Parse(s, garbage) == Some(b) <==> IsTextOf(s, b)
  {
    hide Scan, Finish, PlainText, QuadText;
    if Parse(s, garbage) == Some(b) { ParsedIsText(s, garbage, b); }
    forall q: Parts | PlainText(s, q, b) ensures Parse(s, garbage) == Some(b) { PlainTextParses(s, garbage, q, b); }
    forall q: Parts, quad: seq<byte> | QuadText(s, q, quad, b) ensures Parse(s, garbage) == Some(b) {
      QuadTextParses(s, garbage, q, quad, b);
    }
  }

  lemma ParsedIsText(s: string, garbage: seq<byte>, b: seq<byte>)
    requires |garbage| == 16 && Parse(s, garbage) == Some(b)
    ensures IsTextOf(s, b)
  {
    hide Scan, Behold, Spelled, PartsOk, Complete, BeforeQuad;
    BeholdNothing(garbage);
    assert s[..0] == "";
    var stop := Scan(s, 0, Fresh(garbage));
    var q := ScanTells(s, 0, NOTHING, garbage);
    match stop
    case Fail =>
    case AtEnd(p) =>
      FinishAtEnd(s, q, garbage);
      hide Finish;
      assert PlainText(s, q, b);
    case Dotted(i, p) =>
      var quad := FinishDotted(s, i, q, garbage);
      hide Finish;
      assert QuadText(s, q.(last := ""), quad, b);
  }

  lemma PlainTextParses(s: string, garbage: seq<byte>, q: Parts, b: seq<byte>)
    requires |garbage| == 16 && PlainText(s, q, b)
    ensures Parse(s, garbage) == Some(b)
  {
    hide Finish, Behold, Spelled, PartsOk, Complete;
    assert s[..|s|] == s;
    ScanReaches(s, |s|, q, garbage);
    FinishAtEnd(s, q, garbage);
  }

  lemma QuadTextParses(s: string, garbage: seq<byte>, q: Parts, quad: seq<byte>, b: seq<byte>)
    requires |garbage| == 16 && QuadText(s, q, quad, b)
    ensures Parse(s, garbage) == Some(b)
  {
    hide Behold, Spelled, Expand, Quad, Dots, Scan, BackTo, PartsOk, BeforeQuad, QuadAddressOf;
    BeforeNeeds(q);
    var r := FirstOfNumbers(s, q, quad);
    var i := |Spelled(r)|;
    ScanReaches(s, i, r, garbage);
    ScanStops(s, i, Behold(r, garbage));
    HeadBegins(r);
    HeadIsBefore(r, quad, garbage);
  }

  // The parts with the first number behind them: a dot follows, and the parser goes back to their end.
  lemma FirstOfNumbers(s: string, q: Parts, quad: seq<byte>) returns (r: Parts)
    requires PartsOk(q) && |quad| == 4 && q.last == "" && Spelled(q) != "" && s == Spelled(q) + Dots(quad)
    ensures PartsOk(r) && r.(last := "") == q && r.last != ""
    ensures var i := |Spelled(r)|;
      && i < |s| && s[i] == '.' && s[..i] == Spelled(r)
      && Quad(s, BackTo(s, i), [], 0, true) == Some(quad)
  {
    hide Spelled, Quad, Dots, BackTo, Decimal, Group;
    r := q.(last := Decimal(quad[0]));
    DecimalIsGroup(quad[0]);
    SpelledHead(r);
    DotBehind(s, Spelled(q), quad);
    BackToDigits(s, |Spelled(r)|, r);
    WholeStands(Spelled(q), Dots(quad));
    QuadReads(s, |Spelled(q)|, [], quad);
    assert [] + quad == quad;
  }

  lemma BeforeNeeds(q: Parts)
    requires BeforeQuad(q)
    ensures q.last == "" && Spelled(q) != "" && |q.front| + |q.rear| <= 6
  {
  }

  lemma ScanStops(s: string, i: nat, p: Reading)
    requires i < |s| && s[i] == '.' && Ready(p)
    ensures Scan(s, i, p) == Dotted(i, p)
  {
  }

  // The first number and the dot behind it.
  lemma DotBehind(s: string, head: string, quad: seq<byte>)
    requires |quad| == 4 && s == head + Dots(quad)
    ensures var i := |head| + |Decimal(quad[0])|;
      i < |s| && s[i] == '.' && s[..i] == head + Decimal(quad[0])
  {
    assert Dots(quad) == Decimal(quad[0]) + ("." + Dots(quad[1..]));
    hide Dots, Decimal;
    var i := |head| + |Decimal(quad[0])|;
    Regroup(head, Decimal(quad[0]), "." + Dots(quad[1..]));
    assert s[i] == ("." + Dots(quad[1..]))[0];
  }

  // Section 2.2 of RFC 4291 lets a double colon stand for one group or more: here it may also stand
  // between eight blocks, for none.
  lemma DoubleColonForNothing(front: seq<Block>, rear: seq<Block>, garbage: seq<byte>)
    requires |front| + |rear| == 8 && rear != [] && |garbage| == 16
    ensures Parse((Joined(front) + "::") + Joined(rear), garbage) == Some(BytesOf(front + rear))
  {
    hide StandsAt, Joined, BytesOf, Parse, Padded;
    var head := Joined(front) + "::";
    WholeStands(head, Joined(rear));
    ShortReads(head + Joined(rear), front, rear, garbage);
    BytesCat(front, rear);
    NothingBetween(BytesOf(front), BytesOf(rear));
  }

  lemma NothingBetween(f: seq<byte>, r: seq<byte>)
    requires |f| + |r| == 16
    ensures Padded(f, r) == f + r
  {
    assert NoughtBytes(0) == [];
  }

  // ---------------------------------------------------------------------------------------
  // The code
  // ---------------------------------------------------------------------------------------

  // One more block.
  lemma GrowRun(blocks: seq<Block>, i: nat, start: nat, len: nat, cs: nat, cl: nat)
    requires i < |blocks| && cs + cl == i && Zeros(blocks, cs, cl) && (cs > 0 ==> blocks[cs - 1] != 0)
    requires start + len <= i && LongestUpTo(blocks, i, start, len) && cl <= len
    ensures blocks[i] == 0 ==>
      && Zeros(blocks, cs, cl + 1)
      && (if cl + 1 > len then LongestUpTo(blocks, i + 1, cs, cl + 1) else LongestUpTo(blocks, i + 1, start, len))
    ensures blocks[i] != 0 ==> LongestUpTo(blocks, i + 1, start, len) && Zeros(blocks, i + 1, 0)
  {
    forall a: nat, l: nat | Zeros(blocks, a, l) && a + l == i + 1 && l > 0 ensures blocks[i] == 0 && a >= cs {
      assert blocks[i] == 0;
      RunBeginsAfter(blocks, cs, a, l);
    }
  }

  lemma RunBeginsAfter(blocks: seq<Block>, cs: nat, a: nat, l: nat)
    requires cs <= |blocks| && (cs > 0 ==> blocks[cs - 1] != 0) && Zeros(blocks, a, l) && a + l >= cs && l > 0
    ensures a >= cs || cs == 0 || a + l < cs
  {
    if cs > 0 { assert blocks[cs - 1] != 0; }
  }

  // The first loop of ipaddr6_print_addr.
  method LongestZeros(addr: seq<byte>) returns (start: nat, len: nat)
    requires |addr| == 16
    ensures FirstLongest(Blocks(addr), start, len)
  {
    ghost var blocks := Blocks(addr);
    var currentStart: nat, currentLen: nat := 0, 0;
    start, len := 0, 0;
    for i := 0 to 8
      invariant currentStart + currentLen == i
      invariant Zeros(blocks, currentStart, currentLen) && (currentStart > 0 ==> blocks[currentStart - 1] != 0)
      invariant start + len <= i && LongestUpTo(blocks, i, start, len) && currentLen <= len
    {
      GrowRun(blocks, i, start, len, currentStart, currentLen);
      assert blocks[i] == BlockAt(addr, i);
      if addr[2 * i] == 0 && addr[2 * i + 1] == 0 {
        currentLen := currentLen + 1;
        if currentLen > len {
          start := currentStart;
          len := currentLen;
        }
      } else {
        currentStart := i + 1;
        currentLen := 0;
      }
    }
    assert FirstLongest(blocks, start, len);
  }

  // The first of the longest runs of zeros among the first i blocks.
  ghost predicate LongestUpTo(blocks: seq<Block>, i: nat, start: nat, len: nat) {
    && Zeros(blocks, start, len)
    && forall a: nat, l: nat :: Zeros(blocks, a, l) && a + l <= i ==> l < len || (l == len && (l == 0 || start <= a))
  }

  // The blocks with a colon behind each.
  function Behind(blocks: seq<Block>): string {
    if blocks == [] then "" else Behind(blocks[..|blocks| - 1]) + Hex(blocks[|blocks| - 1]) + ":"
  }

  lemma {:induction false} ColonsSnoc(blocks: seq<Block>, x: Block)
    ensures Colons(blocks + [x]) == Colons(blocks) + ":" + Hex(x)
  {
    if blocks == [] {
      assert [] + [x] == [x];
      assert Colons([x]) == ":" + Hex(x) + Colons([]);
    } else {
      ColonsSnoc(blocks[1..], x);
      assert (blocks + [x])[1..] == blocks[1..] + [x];
      var a, b := ":" + Hex(blocks[0]), Colons(blocks[1..]);
      assert a + (b + ":" + Hex(x)) == (a + b) + ":" + Hex(x);
    }
  }

  lemma {:induction false} BehindIsJoined(blocks: seq<Block>)
    requires blocks != []
    ensures Behind(blocks) == Joined(blocks) + ":"
  {
    hide Hex, Colons;
    var n := |blocks| - 1;
    var init, x := blocks[..n], blocks[n];
    assert blocks == init + [x];
    JoinedSnoc(init, x);
    if n == 0 {
      OneBehind(x);
    } else {
      BehindIsJoined(init);
    }
  }

  lemma OneBehind(x: Block)
    ensures Behind([x]) == Hex(x) + ":"
  {
    assert [x][..0] == [];
  }

  // The text fits the buffer that IPADDR6_PRINT_MAX gives it.
  lemma TextFits(blocks: seq<Block>, start: nat, len: nat)
    requires |blocks| == 8 && start + len <= 8
    ensures |Text(blocks, start, len)| <= 39
  {
    hide Joined;
    JoinedFits(blocks);
    JoinedFits(blocks[..start]);
    JoinedFits(blocks[start + len..]);
  }

  lemma JoinedFits(blocks: seq<Block>)
    ensures |Joined(blocks)| <= if blocks == [] then 0 else 5 * |blocks| - 1
  {
    if blocks != [] {
      HexFits(blocks[0]);
      ColonsFit(blocks[1..]);
    }
  }

  lemma {:induction false} ColonsFit(blocks: seq<Block>)
    ensures |Colons(blocks)| <= 5 * |blocks|
  {
    if blocks != [] {
      HexFits(blocks[0]);
      ColonsFit(blocks[1..]);
    }
  }

  lemma HexFits(x: Block)
    ensures |Hex(x)| <= 4
  {
    var y := x / 16;
    var z := y / 16;
    assert |Hex(z / 16)| == 1;
    assert |Hex(z)| <= 2;
    assert |Hex(y)| <= 3;
  }

  // ipaddr6_print_addr.  It prints the address with the first longest run of two or more zero
  // blocks left out, in at most 39 characters.
  method PrintAddr(addr: seq<byte>) returns (text: string, ghost start: nat, ghost len: nat)
    requires |addr| == 16
    ensures FirstLongest(Blocks(addr), start, len)
    ensures text == Text(Blocks(addr), start, len) && |text| <= 39
  {
    ghost var blocks := Blocks(addr);
    var s, l := LongestZeros(addr);
    start, len := s, l;
    TextFits(blocks, s, l);
    if l > 1 {
      text := PrintShort(addr, s, l);
    } else {
      text := "";
      var prefix := "";
      for i := 0 to 8
        invariant prefix == if i == 0 then "" else ":"
        invariant text == Joined(blocks[..i])
      {
        JoinedSnoc(blocks[..i], blocks[i]);
        assert blocks[..i + 1] == blocks[..i] + [blocks[i]];
        text := text + prefix + Hex(BlockAt(addr, i));
        prefix := ":";
      }
      assert blocks[..8] == blocks;
    }
  }

  lemma JoinedSnoc(blocks: seq<Block>, x: Block)
    ensures Joined(blocks + [x]) == Joined(blocks) + (if blocks == [] then "" else ":") + Hex(x)
  {
    if blocks == [] {
      assert [] + [x] == [x] && [x][1..] == [];
      assert Colons([]) == "";
    } else {
      assert (blocks + [x])[1..] == blocks[1..] + [x];
      ColonsSnoc(blocks[1..], x);
    }
  }

  // The branch of ipaddr6_print_addr that leaves a run of zeros out.
  method PrintShort(addr: seq<byte>, start: nat, len: nat) returns (text: string)
    requires |addr| == 16 && len > 1 && start + len <= 8
    ensures text == Text(Blocks(addr), start, len)
  {
    hide Behind, Colons, Text, Joined;
    text := PrintFront(addr, start);
    if start == 0 {
      text := text + ":";
    }
    var rear := PrintRear(addr, start + len);
    text := text + rear;
    if start + len == 8 {
      text := text + ":";
    }
    ShortText(Blocks(addr), start, len);
  }

  method PrintFront(addr: seq<byte>, start: nat) returns (text: string)
    requires |addr| == 16 && start <= 8
    ensures text == Behind(Blocks(addr)[..start])
    ensures start == 0 ==> text == ""
  {
    hide Hex;
    ghost var blocks := Blocks(addr);
    text := "";
    for i := 0 to start
      invariant text == Behind(blocks[..i])
    {
      assert blocks[..i + 1][..i] == blocks[..i];
      text := text + Hex(BlockAt(addr, i)) + ":";
    }
  }

  method PrintRear(addr: seq<byte>, from: nat) returns (text: string)
    requires |addr| == 16 && from <= 8
    ensures text == Colons(Blocks(addr)[from..])
  {
    hide Hex;
    ghost var blocks := Blocks(addr);
    text := "";
    for i := from to 8
      invariant text == Colons(blocks[from..i])
    {
      assert blocks[from..i + 1] == blocks[from..i] + [blocks[i]];
      ColonsSnoc(blocks[from..i], blocks[i]);
      text := text + ":" + Hex(BlockAt(addr, i));
    }
    assert blocks[from..8] == blocks[from..];
  }

  // The pieces that are printed make up the text.
  lemma ShortText(blocks: seq<Block>, start: nat, len: nat)
    requires |blocks| == 8 && len > 1 && start + len <= 8
    ensures (if start == 0 then ":" else Behind(blocks[..start])) + Colons(blocks[start + len..])
      + (if start + len == 8 then ":" else "") == Text(blocks, start, len)
  {
    hide Behind, Colons, Hex, Joined;
    var front, rear := blocks[..start], blocks[start + len..];
    NothingJoined();
    NoColons();
    if start > 0 { BehindIsJoined(front); } else { assert front == []; }
    if start + len < 8 { ColonFirst(rear); } else { assert rear == []; }
    Pieces(Joined(front), Joined(rear));
  }

  lemma ColonFirst(blocks: seq<Block>)
    requires blocks != []
    ensures Colons(blocks) == ":" + Joined(blocks)
  {
    ColonsUnfold(blocks);
  }

  lemma NoColons()
    ensures Colons([]) == ""
  {
  }

  lemma Pieces(a: string, b: string)
    ensures (a + ":") + (":" + b) + "" == a + "::" + b && (a + ":") + "" + ":" == a + "::" + ""
    ensures ":" + (":" + b) + "" == "" + "::" + b && ":" + "" + ":" == "" + "::" + ""
  {
  }

  // ipaddr6_parse_ipv6_addr
  method ParseAddr(name: string, out: array<byte>) returns (ok: bool)
    requires out.Length == 16
    modifies out
    ensures ok == Parse(name, old(out[..])).Some?
    ensures ok ==> out[..] == Parse(name, old(out[..])).value
  {
    hide Scan, Quad, BackTo, Expand;
    var i, num, compress, block, empty;
    ok, i, num, compress, block, empty := ScanText(name, out);
    if !ok { return; }
    ok, num := LastBlocks(name, i, out, num, compress, block, empty);
    if !ok { return; }
    ok := PutZeros(out, num, compress);
  }

  // What the text ends with: the dotted form, a block, or a double colon.
  method LastBlocks(name: string, i: nat, out: array<byte>, num0: nat, compress: Option<nat>, block: Block, empty: bool)
    returns (ok: bool, num: nat)
    requires out.Length == 16 && i <= |name| && Ready(Reading(num0, compress, block, empty, out[..]))
    requires num0 > 0 || compress.Some? ==> exists k :: 0 <= k < i && name[k] == ':'
    modifies out
    ensures ok ==> num <= 8 && (compress.Some? ==> compress.value <= num)
    ensures var p := Reading(num0, compress, block, empty, old(out[..]));
      Finish(name, if i < |name| then Dotted(i, p) else AtEnd(p)) == if ok then Expand(num, compress, out[..]) else None
  {
    hide Quad, BackTo, Expand;
    num := num0;
    if i < |name| {
      ok := ReadDotted(name, i, out, num, compress, empty);
      if ok { num := num + 2; }
    } else if !empty {
      out[2 * num], out[2 * num + 1] := block / 256, block % 256;
      assert out[..] == Store(Reading(num0, compress, block, empty, old(out[..]))).bytes;
      num := num + 1;
      ok := true;
    } else {
      ok := compress == Some(num);
    }
  }

  // The loop over the text.  It stops at the end or at a dot.
  method ScanText(name: string, out: array<byte>)
    returns (ok: bool, i: nat, num: nat, compress: Option<nat>, block: Block, empty: bool)
    requires out.Length == 16
    modifies out
    ensures i <= |name| && Ready(Reading(num, compress, block, empty, out[..]))
    ensures var p := Reading(num, compress, block, empty, out[..]);
      Scan(name, 0, Fresh(old(out[..]))) == if !ok then Fail else if i < |name| then Dotted(i, p) else AtEnd(p)
    ensures ok && (num > 0 || compress.Some?) ==> exists k :: 0 <= k < i && name[k] == ':'
  {
    ok, i, num, compress, block, empty := true, 0, 0, None, 0, true;
    while i < |name|
      invariant i <= |name| && Ready(Reading(num, compress, block, empty, out[..]))
      invariant Scan(name, 0, Fresh(old(out[..]))) == Scan(name, i, Reading(num, compress, block, empty, out[..]))
      invariant num > 0 || compress.Some? ==> exists k :: 0 <= k < i && name[k] == ':'
      decreases |name| - i
    {
      if name[i] == '.' {
        return;
      } else if name[i] == ':' {
        var double := i + 1 < |name| && name[i + 1] == ':';
        ok, num, compress, block, empty := ReadColon(name, i, double, out, num, compress, block, empty);
        if !ok { return; }
        i := if double then i + 2 else i + 1;
      } else {
        var digit := HexDigit(name[i]);
        if digit < 0 || block > 0xFFFF / 16 || digit > 0xFFFF - block * 16 {
          ok := false;
          return;
        }
        block := block * 16 + digit;
        empty := false;
        i := i + 1;
      }
    }
  }

  // One colon.
  method ReadColon(name: string, i: nat, double: bool, out: array<byte>,
    num0: nat, compress0: Option<nat>, block0: Block, empty0: bool)
    returns (ok: bool, num: nat, compress: Option<nat>, block: Block, empty: bool)
    requires out.Length == 16 && i < |name| && double == Double(name, i)
    requires Ready(Reading(num0, compress0, block0, empty0, out[..]))
    modifies out
    ensures Ready(Reading(num, compress, block, empty, out[..]))
    ensures Colon(name, i, Reading(num0, compress0, block0, empty0, old(out[..])))
      == if ok then Some(Reading(num, compress, block, empty, out[..])) else None
  {
    num, compress, block, empty := num0, compress0, block0, empty0;
    if i > 0 {
      if empty || num == 7 {
        return false, num, compress, block, empty;
      }
      out[2 * num], out[2 * num + 1] := block / 256, block % 256;
      num := num + 1;
      block := 0;
      empty := true;
      assert out[..] == old(out[..])[2 * num0 := block0 / 256][2 * num0 + 1 := block0 % 256];
    } else if !double {
      return false, num, compress, block, empty;
    }
    if double {
      if compress.Some? {
        return false, num, compress, block, empty;
      }
      compress := Some(num);
    }
    ok := true;
  }

  // The dotted form at the end: go back to the last colon, and read four numbers.
  method ReadDotted(name: string, dot: nat, out: array<byte>, num: nat, compress: Option<nat>, empty: bool)
    returns (ok: bool)
    requires out.Length == 16 && dot <= |name| && num <= 7
    requires num > 0 || compress.Some? ==> exists k :: 0 <= k < dot && name[k] == ':'
    modifies out
    ensures ok <==>
      !(empty || (num == 0 && compress.None?)) && Quad(name, BackTo(name, dot), [], 0, true).Some? && num <= 6
    ensures ok ==> var b := old(out[..]);
      out[..] == b[..2 * num] + Quad(name, BackTo(name, dot), [], 0, true).value + b[2 * num + 4..]
  {
    if empty || (num == 0 && compress.None?) {
      return false;
    }
    var i := dot;
    while name[i - 1] != ':'
      invariant 0 < i <= dot && BackTo(name, i) == BackTo(name, dot)
      invariant exists k :: 0 <= k < i && name[k] == ':'
      decreases i
    {
      i := i - 1;
    }
    var quad;
    ok, quad := ReadQuad(name, i);
    if !ok || 8 - num < 2 {
      return false;
    }
    ghost var b := out[..];
    forall k | 0 <= k < 4 {
      out[2 * num + k] := quad[k];
    }
    assert out[..] == b[..2 * num] + quad + b[2 * num + 4..];
  }

  method ReadQuad(name: string, from: nat) returns (ok: bool, quad: seq<byte>)
    requires from <= |name|
    ensures ok == Quad(name, from, [], 0, true).Some?
    ensures ok ==> quad == Quad(name, from, [], 0, true).value
  {
    var i, b: byte, empty := from, 0, true;
    quad := [];
    while i < |name|
      invariant i <= |name| && |quad| <= 3
      invariant Quad(name, i, quad, b, empty) == Quad(name, from, [], 0, true)
    {
      if name[i] == '.' {
        if empty || |quad| == 3 { return false, quad; }
        quad := quad + [b];
        b := 0;
        empty := true;
      } else {
        var digit := DecimalDigit(name[i]);
        if (!empty && b == 0) || digit < 0 || b > 255 / 10 || digit > 255 - b * 10 { return false, quad; }
        b := b * 10 + digit;
        empty := false;
      }
      i := i + 1;
    }
    if |quad| != 3 || empty { return false, quad; }
    quad := quad + [b];
    ok := true;
  }

  // The end of the function: the zeros of the double colon.
  method PutZeros(out: array<byte>, num: nat, compress: Option<nat>) returns (ok: bool)
    requires out.Length == 16 && num <= 8 && (compress.Some? ==> compress.value <= num)
    modifies out
    ensures ok == Expand(num, compress, old(out[..])).Some?
    ensures ok ==> out[..] == Expand(num, compress, old(out[..])).value
  {
    hide Padded;
    var c := 0;
    if compress.None? {
      if num != 8 { return false; }
    } else {
      c := compress.value;
    }
    var rear := num - c;
    ghost var b := out[..];
    MoveRear(out, c, rear);
    ZerosPut(b, out[..], c, num);
    ok := true;
  }

  // The memmove and the memset.
  method MoveRear(out: array<byte>, c: nat, rear: nat)
    requires out.Length == 16 && c + rear <= 8
    modifies out
    ensures forall k :: 0 <= k < 2 * c ==> out[k] == old(out[k])
    ensures forall k :: 2 * c <= k < 2 * (8 - rear) ==> out[k] == 0
    ensures forall k :: 2 * (8 - rear) <= k < 16 ==> out[k] == old(out[k - 2 * (8 - rear - c)])
  {
    forall k | 2 * (8 - rear) <= k < 16 {
      out[k] := out[k - 2 * (8 - rear - c)];
    }
    forall k | 2 * c <= k < 2 * (8 - rear) {
      out[k] := 0;
    }
  }

  lemma ZerosPut(b: seq<byte>, r: seq<byte>, c: nat, num: nat)
    requires |b| == |r| == 16 && c <= num <= 8
    requires forall k :: 0 <= k < 2 * c ==> r[k] == b[k]
    requires forall k :: 2 * c <= k < 2 * (8 - num + c) ==> r[k] == 0
    requires forall k :: 2 * (8 - num + c) <= k < 16 ==> r[k] == b[k - 2 * (8 - num)]
    ensures r == Padded(b[..2 * c], b[2 * c..2 * num])
    ensures num == 8 ==> r == b
  {
    assert num == 8 ==> forall k :: 0 <= k < 16 ==> r[k] == b[k];
  }
}