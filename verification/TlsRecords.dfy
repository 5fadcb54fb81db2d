// Cutting TLS records (byedpi/packets.c and desync.c; section 5.1 of RFC 8446).
//
// A record is three bytes of type and version, two of length, and its fragment.

module TlsRecords {
  import opened Common

  // ANTOHS and SHTONA
  function Word(high: byte, low: byte): (r: nat)
    ensures r < 0x10000
  {
    high * 256 + low
  }

  function Be16(x: nat): (r: seq<byte>)
    ensures |r| == 2
    ensures x < 0x10000 ==> Word(r[0], r[1]) == x
  {
    [x / 256 % 256, x % 256]
  }

  function SizeAt(s: seq<byte>, i: nat): (r: nat)
    requires i + 1 < |s|
    ensures r < 0x10000
  {
    Word(s[i], s[i + 1])
  }

  lemma WordIs(s: seq<byte>, x: nat)
    requires |s| == 2 && Word(s[0], s[1]) == x
    ensures s == Be16(x)
  {
    assert s[0] == x / 256 && s[1] == x % 256;
  }

  // A record header.
  function Header(kind: seq<byte>, size: nat): seq<byte>
    requires |kind| == 3
    ensures |Header(kind, size)| == 5
  {
    kind + Be16(size)
  }

  // What a receiver gets out of a stream of records: their fragments, put together.  The last
  // record may be cut short.
  function Payload(s: seq<byte>): seq<byte> {
    if |s| < 5 then []
    else
      var size := SizeAt(s, 3);
      if 5 + size >= |s| then s[5..]
      else s[5..5 + size] + Payload(s[5 + size..])
  }

  // The headers of the first `count` records of a stream.
  ghost predicate Starts(s: seq<byte>, kind: seq<byte>, sizes: seq<nat>)
  {
    sizes == [] ||
    (&& |s| >= 5 + sizes[0] && s[..3] == kind && SizeAt(s, 3) == sizes[0]
     && Starts(s[5 + sizes[0]..], kind, sizes[1..]))
  }

  function Sum(s: seq<nat>): nat {
    if s == [] then 0 else s[0] + Sum(s[1..])
  }

  // A record of length `size`, of which the data has the bytes `body` and whatever follows them,
  // cut into fragments of the given sizes and a last one.
  function Framed(kind: seq<byte>, size: nat, body: seq<byte>, sizes: seq<nat>): (r: seq<byte>)
    requires |kind| == 3 && Sum(sizes) <= size && Sum(sizes) <= |body|
    ensures |r| == 5 + |body| + 5 * |sizes|
    decreases sizes
  {
    if sizes == [] then Header(kind, size) + body
    else
      Header(kind, sizes[0]) + body[..sizes[0]] + Framed(kind, size - sizes[0], body[sizes[0]..], sizes[1..])
  }

  // ---------------------------------------------------------------------------------------
  // Cutting
  // ---------------------------------------------------------------------------------------

  // Splitting a record changes neither its type and version nor what the receiver gets, and the
  // fragments have the sizes asked for.
  lemma {:induction false} SplittingPreservesPayload(kind: seq<byte>, size: nat, body: seq<byte>, sizes: seq<nat>)
    requires |kind| == 3 && Sum(sizes) <= size < 0x10000 && Sum(sizes) <= |body|
    ensures Payload(Framed(kind, size, body, sizes)) == Payload(Framed(kind, size, body, []))
    ensures Starts(Framed(kind, size, body, sizes), kind, sizes)
    decreases sizes
  {
    if sizes != [] {
      hide Framed, Sum, Payload, Header, SizeAt;
      FramedUnfolds(kind, size, body, sizes);
      var s := sizes[0];
      var rest := Framed(kind, size - s, body[s..], sizes[1..]);
      SplittingPreservesPayload(kind, size - s, body[s..], sizes[1..]);
      FirstFragment(kind, s, body[..s], rest);
      PayloadOfHead(kind, size, body, s);
    }
  }

  lemma FirstFragment(kind: seq<byte>, s: nat, part: seq<byte>, rest: seq<byte>)
    requires |kind| == 3 && s < 0x10000 && |part| == s && |rest| >= 5
    ensures var whole := Header(kind, s) + part + rest;
      && whole[..3] == kind && SizeAt(whole, 3) == s && whole[5 + s..] == rest
      && Payload(whole) == part + Payload(rest)
  {
    var whole := Header(kind, s) + part + rest;
    assert whole[3] == Be16(s)[0] && whole[4] == Be16(s)[1];
    assert whole[5..5 + s] == part && whole[5 + s..] == rest;
  }

  // A record's payload, from any point inside it on, is that of a shorter record.
  lemma PayloadOfHead(kind: seq<byte>, size: nat, body: seq<byte>, s: nat)
    requires |kind| == 3 && s <= size < 0x10000 && s <= |body|
    ensures Payload(Framed(kind, size, body, [])) == body[..s] + Payload(Framed(kind, size - s, body[s..], []))
  {
    hide Framed, Payload;
    PlainPayload(kind, size, body);
    PlainPayload(kind, size - s, body[s..]);
    assert body == body[..s] + body[s..];
    if size < |body| {
      assert body[..size] == body[..s] + body[s..][..size - s];
      assert body[size..] == body[s..][size - s..];
    }
  }

  lemma PlainPayload(kind: seq<byte>, size: nat, body: seq<byte>)
    requires |kind| == 3 && size < 0x10000
    ensures Payload(Framed(kind, size, body, []))
      == if size >= |body| then body else body[..size] + Payload(body[size..])
  {
    hide SizeAt, Header, Framed;
    PlainFrame(kind, size, body);
    HeaderAt(kind, size, body);
    if size < |body| { BehindHeader(Header(kind, size), body, size); }
  }

  // What a cut `pos` bytes into the last fragment does.
  ghost predicate CutsLast(kind: seq<byte>, size: nat, body: seq<byte>, sizes: seq<nat>, pos: nat)
    requires |kind| == 3 && Sum(sizes) + pos <= size && Sum(sizes) + pos <= |body|
    requires Sum(sizes + [pos]) == Sum(sizes) + pos
  {
    var lp := Sum(sizes) + 5 * |sizes|;
    var rest := size - Sum(sizes);
    var whole := Framed(kind, size, body, sizes);
    && whole[lp..] == Header(kind, rest) + body[Sum(sizes)..]
    && Framed(kind, size, body, sizes + [pos]) == whole[..lp] + Framed(kind, rest, body[Sum(sizes)..], [pos])
  }

  lemma {:induction false} SumSnoc(s: seq<nat>, x: nat)
    ensures Sum(s + [x]) == Sum(s) + x && Sum([x]) == x
  {
    if s != [] {
      SumSnoc(s[1..], x);
      assert (s + [x])[1..] == s[1..] + [x];
    } else {
      assert s + [x] == [x];
      assert Sum([x]) == x;
    }
  }

  lemma {:induction false} CutLast(kind: seq<byte>, size: nat, body: seq<byte>, sizes: seq<nat>, pos: nat)
    requires |kind| == 3 && Sum(sizes) + pos <= size && Sum(sizes) + pos <= |body|
    ensures Sum(sizes + [pos]) == Sum(sizes) + pos && CutsLast(kind, size, body, sizes, pos)
    decreases sizes
  {
    SumSnoc(sizes, pos);
    if sizes == [] {
      assert [] + [pos] == [pos];
      assert body[0..] == body;
    } else {
      CutLast(kind, size - sizes[0], body[sizes[0]..], sizes[1..], pos);
      CutLastStep(kind, size, body, sizes, pos);
    }
  }

  lemma CutLastStep(kind: seq<byte>, size: nat, body: seq<byte>, sizes: seq<nat>, pos: nat)
    requires |kind| == 3 && Sum(sizes) + pos <= size && Sum(sizes) + pos <= |body| && sizes != []
    requires Sum(sizes + [pos]) == Sum(sizes) + pos && Sum(sizes[1..] + [pos]) == Sum(sizes[1..]) + pos
    requires CutsLast(kind, size - sizes[0], body[sizes[0]..], sizes[1..], pos)
    ensures CutsLast(kind, size, body, sizes, pos)
  {
    hide Framed, Sum, Header;
    FramedUnfolds(kind, size, body, sizes);
    FramedUnfolds(kind, size, body, sizes + [pos]);
    SumSnoc([], pos);
    var s := sizes[0];
    assert (sizes + [pos])[1..] == sizes[1..] + [pos] && (sizes + [pos])[0] == s;
    var front := Header(kind, s) + body[..s];
    var inner := Framed(kind, size - s, body[s..], sizes[1..]);
    var lp := Sum(sizes[1..]) + 5 * |sizes[1..]|;
    assert body[s..][Sum(sizes[1..])..] == body[s + Sum(sizes[1..])..];
    Behind(front, inner, lp, Framed(kind, size - Sum(sizes), body[Sum(sizes)..], [pos]));
  }

  lemma Behind(front: seq<byte>, inner: seq<byte>, lp: nat, x: seq<byte>)
    requires lp <= |inner|
    ensures (front + inner)[|front| + lp..] == inner[lp..]
    ensures (front + inner)[..|front| + lp] + x == front + (inner[..lp] + x)
  {
  }

  lemma FramedUnfolds(kind: seq<byte>, size: nat, body: seq<byte>, sizes: seq<nat>)
    requires |kind| == 3 && Sum(sizes) <= size && Sum(sizes) <= |body| && sizes != []
    ensures Sum(sizes) == sizes[0] + Sum(sizes[1..])
    ensures Framed(kind, size, body, sizes)
      == (Header(kind, sizes[0]) + body[..sizes[0]]) + Framed(kind, size - sizes[0], body[sizes[0]..], sizes[1..])
  {
  }

  // The bytes after a cut.
  function CutAt(s: seq<byte>, pos: nat): (r: seq<byte>)
    requires |s| >= 5 + pos
    ensures |r| == |s| + 5
  {
    (s[..3] + Be16(pos) + s[5..5 + pos]) + (s[..3] + Be16(Max(0, SizeAt(s, 3) - pos)) + s[5 + pos..])
  }

  lemma CutIsFramed(kind: seq<byte>, size: nat, body: seq<byte>, pos: nat)
    requires |kind| == 3 && pos <= size < 0x10000 && pos <= |body|
    ensures CutAt(Header(kind, size) + body, pos) == Framed(kind, size, body, [pos])
  {
    hide Be16, Framed, SizeAt, CutAt;
    FramedOnce(kind, size, body, pos);
    HeaderAt(kind, size, body);
    BehindHeader(Header(kind, size), body, pos);
    CutPieces(Header(kind, size) + body, pos, kind, body[..pos], body[pos..], size);
  }

  lemma CutPieces(s: seq<byte>, pos: nat, kind: seq<byte>, first: seq<byte>, last: seq<byte>, size: nat)
    requires |s| >= 5 + pos && s[..3] == kind && SizeAt(s, 3) == size >= pos
    requires s[5..5 + pos] == first && s[5 + pos..] == last
    ensures CutAt(s, pos) == (kind + Be16(pos) + first) + (kind + Be16(size - pos) + last)
  {
    hide Be16, SizeAt;
  }

  lemma FramedOnce(kind: seq<byte>, size: nat, body: seq<byte>, pos: nat)
    requires |kind| == 3 && pos <= size && pos <= |body|
    ensures Sum([pos]) == pos
    ensures Framed(kind, size, body, [pos])
      == Header(kind, pos) + body[..pos] + (Header(kind, size - pos) + body[pos..])
  {
    hide Be16;
    SumSnoc([], pos);
    FramedUnfolds(kind, size, body, [pos]);
    PlainFrame(kind, size - pos, body[pos..]);
  }

  lemma BehindHeader(h: seq<byte>, body: seq<byte>, pos: nat)
    requires |h| == 5 && pos <= |body|
    ensures (h + body)[5..5 + pos] == body[..pos] && (h + body)[5 + pos..] == body[pos..]
  {
  }

  lemma HeaderAt(kind: seq<byte>, size: nat, body: seq<byte>)
    requires |kind| == 3 && size < 0x10000
    ensures var s := Header(kind, size) + body; s[..3] == kind && SizeAt(s, 3) == size && s[5..] == body
  {
    var s := Header(kind, size) + body;
    assert s[3] == Be16(size)[0] && s[4] == Be16(size)[1];
  }

  lemma PlainFrame(kind: seq<byte>, size: nat, body: seq<byte>)
    requires |kind| == 3
    ensures Framed(kind, size, body, []) == Header(kind, size) + body
  {
  }

  // `t` is `r` with the bytes from `lp` to `n` cut at `pos`.
  ghost predicate Recut(r: seq<byte>, t: seq<byte>, lp: nat, n: nat, pos: nat)
    requires lp <= n && n + 5 <= |r| && pos + 5 <= n - lp
  {
    && |t| == |r|
    && t[lp..n + 5] == CutAt(r[lp..n], pos) && t[..lp] == r[..lp] && t[n + 5..] == r[n + 5..]
  }

  // part_tls, on the part of the buffer from `off` on.
  method PartTls(a: array<byte>, off: nat, bsize: nat, n: nat, pos: int) returns (r: nat)
    requires off + bsize <= a.Length && n <= bsize
    modifies a
    ensures if n < 3 || bsize - n < 5 || pos < 0 || pos + 5 > n then r == 0
            else r == if SizeAt(old(a[off..off + n]), 3) < pos then n else 5
    ensures r == 0 || SizeAt(old(a[off..off + n]), 3) < pos ==> a[..] == old(a[..])
    ensures r != 0 && SizeAt(old(a[off..off + n]), 3) >= pos ==> Recut(old(a[..]), a[..], off, off + n, pos)
  {
    if n < 3 || bsize - n < 5 || pos < 0 || pos + 5 > n {
      return 0;
    }
    var size := Word(a[off + 3], a[off + 4]);
    if size < pos {
      return n;
    }
    ghost var s := a[..];
    MakeRoom(a, off + 5 + pos, off + n);
    ghost var m := a[..];
    WriteHeaders(a, off, pos, size);
    r := 5;
    CutEverywhere(s, m, a[..], off, n, pos);
  }

  ghost predicate MadeRoom(s: seq<byte>, m: seq<byte>, at: nat, end: nat) {
    && at <= end && end + 5 <= |s| == |m|
    && (forall j :: at + 5 <= j < end + 5 ==> m[j] == s[j - 5])
    && forall j :: 0 <= j < at + 5 || end + 5 <= j < |s| ==> m[j] == s[j]
  }

  // The memmove of part_tls.
  method MakeRoom(a: array<byte>, at: nat, end: nat)
    requires at <= end && end + 5 <= a.Length
    modifies a
    ensures MadeRoom(old(a[..]), a[..], at, end)
  {
    forall i | at <= i < end {
      a[i + 5] := a[i];
    }
  }

  // SHTONA
  method PutWord(a: array<byte>, i: nat, x: nat)
    requires i + 1 < a.Length
    modifies a
    ensures a[..] == old(a[..])[i := Be16(x)[0]][i + 1 := Be16(x)[1]]
  {
    a[i], a[i + 1] := x / 256 % 256, x % 256;
  }

  // The rest of part_tls: the new header and the old one's length.
  method WriteHeaders(a: array<byte>, off: nat, pos: nat, size: nat)
    requires off + pos + 10 <= a.Length && pos <= size < 0x10000
    modifies a
    ensures a[..] == Stamped(old(a[..]), off, pos, size)
  {
    hide Be16;
    var at := off + 5 + pos;
    a[at], a[at + 1], a[at + 2] := a[off], a[off + 1], a[off + 2];
    assert a[..] == old(a[..])[at := old(a[off])][at + 1 := old(a[off + 1])][at + 2 := old(a[off + 2])];
    PutWord(a, off + 3, pos);
    PutWord(a, at + 3, size - pos);
  }

  function Stamped(s: seq<byte>, off: nat, pos: nat, size: nat): seq<byte>
    requires off + pos + 10 <= |s| && pos <= size
  {
    var at := off + 5 + pos;
    var t := s[at := s[off]][at + 1 := s[off + 1]][at + 2 := s[off + 2]];
    var u := t[off + 3 := Be16(pos)[0]][off + 4 := Be16(pos)[1]];
    u[at + 3 := Be16(size - pos)[0]][at + 4 := Be16(size - pos)[1]]
  }

  // What making room and writing the headers comes to, byte by byte.
  lemma StampedByte(s: seq<byte>, m: seq<byte>, off: nat, n: nat, pos: nat, i: nat)
    requires pos + 5 <= n && off + n + 5 <= |s| == |m| && i < |s| && pos <= SizeAt(s[off..off + n], 3)
    requires MadeRoom(s, m, off + 5 + pos, off + n)
    ensures var r := Stamped(m, off, pos, SizeAt(s[off..off + n], 3));
      |r| == |s| && r[i] == if off <= i < off + n + 5 then CutByte(s[off..off + n], pos, i - off) else s[i]
  {
    hide Be16, SizeAt;
    var size := SizeAt(s[off..off + n], 3);
    var at := off + 5 + pos;
    var r := Stamped(m, off, pos, size);
    if i < off { assert r[i] == m[i] == s[i]; }
    else if off + n + 5 <= i { assert r[i] == m[i]; assert m[i] == s[i]; }
    else if i < off + 3 { assert r[i] == m[i]; }
    else if i < off + 5 { assert r[i] == Be16(pos)[i - off - 3]; }
    else if i < at { assert r[i] == m[i]; }
    else if i < at + 3 { assert r[i] == m[i - 5 - pos]; }
    else if i < at + 5 { assert r[i] == Be16(size - pos)[i - at - 3]; }
    else { assert r[i] == m[i]; }
  }

  // Byte k of what is there after a cut.
  function CutByte(s: seq<byte>, pos: nat, k: nat): byte
    requires |s| >= 5 + pos && k < |s| + 5
  {
    if 3 <= k < 5 then Be16(pos)[k - 3]
    else if 5 + pos <= k < 8 + pos then s[k - 5 - pos]
    else if 8 + pos <= k < 10 + pos then Be16(Max(0, SizeAt(s, 3) - pos))[k - 8 - pos]
    else if 10 + pos <= k then s[k - 5]
    else s[k]
  }

  lemma CutBytes(s: seq<byte>, pos: nat, k: nat)
    requires |s| >= 5 + pos && k < |s| + 5
    ensures |CutAt(s, pos)| == |s| + 5 && CutAt(s, pos)[k] == CutByte(s, pos, k)
  {
    hide Be16, SizeAt;
    var kind, a, b := s[..3], Be16(pos), Be16(Max(0, SizeAt(s, 3) - pos));
    if k < 5 + pos {
      ThreeParts(kind, a, s[5..5 + pos], k);
    } else {
      ThreeParts(kind, b, s[5 + pos..], k - 5 - pos);
    }
  }

  lemma ThreeParts(a: seq<byte>, b: seq<byte>, c: seq<byte>, k: nat)
    requires |a| == 3 && |b| == 2 && k < 5 + |c|
    ensures (a + b + c)[k] == if k < 3 then a[k] else if k < 5 then b[k - 3] else c[k - 5]
  {
  }

  lemma CutEverywhere(s: seq<byte>, m: seq<byte>, r: seq<byte>, off: nat, n: nat, pos: nat)
    requires pos + 5 <= n && off + n + 5 <= |s| == |m| && pos <= SizeAt(s[off..off + n], 3)
    requires MadeRoom(s, m, off + 5 + pos, off + n)
    requires r == Stamped(m, off, pos, SizeAt(s[off..off + n], 3))
    ensures |r| == |s| && r[off..off + n + 5] == CutAt(s[off..off + n], pos)
    ensures r[..off] == s[..off] && r[off + n + 5..] == s[off + n + 5..]
  {
    hide CutAt, CutByte, Stamped, SizeAt;
    StampedByte(s, m, off, n, pos, 0);
    var cut := s[off..off + n];
    forall i | 0 <= i < |s| ensures r[i] == if off <= i < off + n + 5 then CutByte(cut, pos, i - off) else s[i] {
      StampedByte(s, m, off, n, pos, i);
    }
    var x, y := r[off..off + n + 5], CutAt(cut, pos);
    CutBytes(cut, pos, 0);
    forall k | 0 <= k < n + 5 ensures x[k] == y[k] {
      CutBytes(cut, pos, k);
      assert x[k] == r[off + k];
    }
  }

  // ---------------------------------------------------------------------------------------
  // Where to cut
  // ---------------------------------------------------------------------------------------

  datatype Flag = End | Mid | Rand | Sni | Host | Start

  // struct part, as far as cutting goes: repeat `r` times, `s` further each time.
  datatype Part = Part(pos: int, flag: set<Flag>, r: int, s: int)

  // What init_proto_info finds in the request.
  datatype Info = Info(isHttps: bool, hostPos: nat, hostLen: nat)

  // gen_offset; `rnd` is what rand() returns.  None stands for a division by zero.
  function GenOffset(pos: int, flag: set<Flag>, n: nat, lp: nat, info: Info, rnd: nat): Option<int> {
    if Sni in flag || Host in flag then
      if info.hostPos == 0 || (Sni in flag && !info.isHttps) then Some(-1)
      else if End in flag then Some(pos + info.hostPos + info.hostLen)
      else if Mid in flag then Some(pos + info.hostPos + info.hostLen / 2)
      else if Rand in flag then
        if info.hostLen == 0 then None else Some(pos + info.hostPos + rnd % info.hostLen)
      else Some(pos + info.hostPos)
    else if Rand in flag then
      // n - lp is a size_t
      if n == lp then None
      else Some(pos + lp + if n > lp then rnd % (n - lp) else rnd)
    else if Mid in flag then Some(pos + n / 2)
    else if pos < 0 || End in flag then Some(pos + n)
    else Some(pos)
  }

  // The place of cut number `rc`, which is repetition `j` of its part, when the last fragment
  // begins at `lp`.
  function CutPlace(part: Part, j: nat, rc: nat, n: nat, lp: nat, info: Info, rnd: nat): Option<int> {
    match GenOffset(part.pos, part.flag, n, lp, info, rnd)
    case None => None
    case Some(o) => Some(o + 5 * rc - (if part.pos < 0 || part.flag != {} then 5 else 0) + part.s * j)
  }

  // All repetitions of all parts in turn; a part is used once even when it says less.
  function Turns(parts: seq<Part>): seq<(Part, nat)> {
    if parts == [] then [] else Repeats(parts[0], 0) + Turns(parts[1..])
  }

  function Repeats(part: Part, j: nat): (r: seq<(Part, nat)>)
    ensures |r| == if j == 0 then Max(1, part.r) else Max(0, part.r - j)
    decreases Max(0, part.r - j) + if j == 0 then 1 else 0
  {
    if j > 0 && j >= part.r then [] else [(part, j)] + Repeats(part, j + 1)
  }

  // The fragment sizes that the loop of tamp cuts off, when the request has n bytes: it stops
  // before a cut that would lie behind the last one, or that part_tls refuses.
  function Plan(turns: seq<(Part, nat)>, rc: nat, n: nat, lp: nat, room: nat, info: Info, rnd: nat -> nat):
    (r: seq<nat>)
    decreases turns
  {
    if turns == [] then []
    else match CutPlace(turns[0].0, turns[0].1, rc, n, lp, info, rnd(rc))
      case None => []
      case Some(pos) =>
        if pos < lp || room < n + 5 * rc + 5 || pos + 5 > n + 5 * rc then []
        else [pos - lp] + Plan(turns[1..], rc + 1, n, pos + 5, room, info, rnd)
  }

  // The plan fits: the cuts lie within the data behind the header, and the room for the headers
  // is there.
  lemma {:induction false} PlanFits(turns: seq<(Part, nat)>, rc: nat, n: nat, lp: nat, room: nat, info: Info,
    rnd: nat -> nat)
    requires lp + 5 <= n + 5 * rc <= room
    ensures var sizes := Plan(turns, rc, n, lp, room, info, rnd);
      && lp + Sum(sizes) + 5 <= n + 5 * rc && n + 5 * rc + 5 * |sizes| <= room
    decreases turns
  {
    var sizes := Plan(turns, rc, n, lp, room, info, rnd);
    if sizes != [] {
      var pos := CutPlace(turns[0].0, turns[0].1, rc, n, lp, info, rnd(rc)).value;
      PlanFits(turns[1..], rc + 1, n, pos + 5, room, info, rnd);
      assert sizes[1..] == Plan(turns[1..], rc + 1, n, pos + 5, room, info, rnd);
    }
  }

  // is_tls_chello
  predicate IsClientHello(s: seq<byte>) {
    |s| > 5 && SizeAt(s, 0) == 0x1603 && s[5] == 0x01
  }

  // The turns left when the loop of tamp is at part `i` and has `r` repetitions of `part` to go.
  ghost function TurnsLeft(parts: seq<Part>, i: nat, part: Part, r: int): seq<(Part, nat)>
    requires i <= |parts|
  {
    (if r > 0 then Repeats(part, Max(1, part.r - r)) else []) + Turns(parts[i..])
  }

  // One turn of the loop: the part in hand, how often it has been used, and what is left.
  lemma NewPart(parts: seq<Part>, i: nat, part: Part, r: int)
    requires i < |parts| && r <= 0
    ensures TurnsLeft(parts, i, part, r)
      == [(parts[i], 0)] + TurnsLeft(parts, i + 1, parts[i], parts[i].r - 1)
  {
    var p := parts[i];
    assert parts[i..][0] == p && parts[i..][1..] == parts[i + 1..];
    hide Turns;
    TurnsUnfold(parts[i..]);
    RepeatsUnfold(p, 0);
    hide Repeats;
    assert [(p, 0)] + Repeats(p, 1) + Turns(parts[i + 1..]) == [(p, 0)] + (Repeats(p, 1) + Turns(parts[i + 1..]));
  }

  lemma SamePart(parts: seq<Part>, i: nat, part: Part, r: int)
    requires i <= |parts| && 0 < r < part.r
    ensures TurnsLeft(parts, i, part, r) == [(part, part.r - r)] + TurnsLeft(parts, i, part, r - 1)
  {
    hide Turns;
    RepeatsUnfold(part, part.r - r);
  }

  lemma TurnsUnfold(parts: seq<Part>)
    requires parts != []
    ensures Turns(parts) == Repeats(parts[0], 0) + Turns(parts[1..])
  {
  }

  lemma RepeatsUnfold(part: Part, j: nat)
    requires j == 0 || j < part.r
    ensures Repeats(part, j) == [(part, j)] + Repeats(part, j + 1)
    ensures part.r <= 1 ==> Repeats(part, 1) == []
  {
  }

  // One cut of the loop of tamp, in the record at `lp`: part_tls leaves the buffer alone when the
  // record is shorter than the cut.
  function CutOnce(r: seq<byte>, lp: nat, n: nat, pos: nat): (t: seq<byte>)
    requires lp + pos + 5 <= n && n + 5 <= |r|
    ensures |t| == |r|
  {
    if SizeAt(r, lp + 3) < pos then r else r[..lp] + CutAt(r[lp..n], pos) + r[n + 5..]
  }

  // The buffer after cuts of the given sizes, each in what the one before has left.
  function Cuts(s: seq<byte>, n0: nat, sizes: seq<nat>): (r: seq<byte>)
    requires Sum(sizes) + 5 <= n0 && n0 + 5 * |sizes| <= |s|
    ensures |r| == |s|
    decreases |sizes|
  {
    if sizes == [] then s
    else
      var k := |sizes| - 1;
      SumOfFront(sizes);
      CutOnce(Cuts(s, n0, sizes[..k]), Sum(sizes[..k]) + 5 * k, n0 + 5 * k, sizes[k])
  }

  lemma SumOfFront(s: seq<nat>)
    requires s != []
    ensures Sum(s) == Sum(s[..|s| - 1]) + s[|s| - 1]
  {
    assert s == s[..|s| - 1] + [s[|s| - 1]];
    SumSnoc(s[..|s| - 1], s[|s| - 1]);
  }

  lemma CutsSnoc(s: seq<byte>, n0: nat, sizes: seq<nat>, pos: nat)
    requires Sum(sizes) + pos + 5 <= n0 && n0 + 5 * |sizes| + 5 <= |s|
    ensures Sum(sizes + [pos]) == Sum(sizes) + pos
    ensures Cuts(s, n0, sizes + [pos])
      == CutOnce(Cuts(s, n0, sizes), Sum(sizes) + 5 * |sizes|, n0 + 5 * |sizes|, pos)
  {
    hide CutOnce, Sum, CutAt, SizeAt, Be16;
    SumSnoc(sizes, pos);
    var all := sizes + [pos];
    assert all[..|sizes|] == sizes && all[|sizes|] == pos && |all| == |sizes| + 1;
  }

  // The cuts within the first record have left it in fragments.
  ghost predicate Reframed(s: seq<byte>, r: seq<byte>, n0: nat, sizes: seq<nat>)
    requires 5 <= n0 && |r| == |s| && n0 + 5 * |sizes| <= |s| && Sum(sizes) <= n0 - 5 && Sum(sizes) <= SizeAt(s, 3)
  {
    && r[..n0 + 5 * |sizes|] == Framed(s[..3], SizeAt(s, 3), s[5..n0], sizes)
    && r[n0 + 5 * |sizes|..] == s[n0 + 5 * |sizes|..]
  }

  // Cut number k is the first that lies outside the record, and the header there still has the
  // length of all that was left of the record.
  ghost predicate MissedAt(s: seq<byte>, r: seq<byte>, sizes: seq<nat>, k: nat)
    requires k < |sizes| && |s| >= 5
  {
    var cut := Sum(sizes[..k]);
    var lp := cut + 5 * k;
    && cut <= SizeAt(s, 3) < cut + sizes[k]
    && lp + 5 <= |r| && SizeAt(r, lp + 3) == SizeAt(s, 3) - cut
  }

  // The buffer after the cuts so far.
  ghost predicate CutUp(s: seq<byte>, r: seq<byte>, n0: nat, sizes: seq<nat>)
    requires 5 <= n0 && |r| == |s| && n0 + 5 * |sizes| <= |s| && Sum(sizes) <= n0 - 5
  {
    if Sum(sizes) <= SizeAt(s, 3) then Reframed(s, r, n0, sizes)
    else exists k: nat :: k < |sizes| && MissedAt(s, r, sizes, k)
  }

  lemma CutUpBegins(s: seq<byte>, n0: nat)
    requires 6 <= n0 <= |s|
    ensures Sum([]) == 0 && Reframed(s, s, n0, [])
  {
    assert s[..n0] == s[..3] + s[3..5] + s[5..n0];
    WordIs(s[3..5], SizeAt(s, 3));
  }

  // The length in the last header.
  lemma LastFragment(s: seq<byte>, r: seq<byte>, n0: nat, sizes: seq<nat>)
    requires 6 <= n0 && |r| == |s| && n0 + 5 * |sizes| <= |s| && Sum(sizes) <= n0 - 5
    requires Sum(sizes) <= SizeAt(s, 3) && Reframed(s, r, n0, sizes)
    ensures SizeAt(r, Sum(sizes) + 5 * |sizes| + 3) == SizeAt(s, 3) - Sum(sizes)
  {
    hide SizeAt, Framed, Sum, Reframed;
    ReframedIs(s, r, n0, sizes);
    LastHeader(s, r, n0, sizes);
  }

  lemma SliceOf(r: seq<byte>, n: nat, lp: nat)
    requires lp <= n <= |r|
    ensures r[lp..n] == r[..n][lp..] && r[..lp] == r[..n][..lp]
  {
  }

  lemma SizeInside(r: seq<byte>, lp: nat, n: nat)
    requires lp + 5 <= n <= |r|
    ensures SizeAt(r[lp..n], 3) == SizeAt(r, lp + 3)
  {
  }

  // One more cut inside the last fragment.
  lemma CutInside(s: seq<byte>, r: seq<byte>, n0: nat, sizes: seq<nat>, pos: nat)
    requires 6 <= n0 && |r| == |s| && n0 + 5 * |sizes| + 5 <= |s| && Sum(sizes) + pos <= n0 - 5
    requires Sum(sizes) + pos <= SizeAt(s, 3) && Reframed(s, r, n0, sizes)
    ensures Sum(sizes + [pos]) == Sum(sizes) + pos
    ensures var t := CutOnce(r, Sum(sizes) + 5 * |sizes|, n0 + 5 * |sizes|, pos);
      Reframed(s, t, n0, sizes + [pos])
  {
    hide Be16, SizeAt, Framed, Sum, CutAt, Header, CutOnce, Reframed;
    var lp, n := Sum(sizes) + 5 * |sizes|, n0 + 5 * |sizes|;
    LastFragment(s, r, n0, sizes);
    FramesCut(s[..3], SizeAt(s, 3), s[5..n0], sizes, pos);
    ReframedIs(s, r, n0, sizes);
    CutParts(s, r, lp, n, pos);
    PrefixCut(r, n, lp, pos);
    ReframedIs(s, CutOnce(r, lp, n, pos), n0, sizes + [pos]);
  }

  lemma PrefixCut(r: seq<byte>, n: nat, lp: nat, pos: nat)
    requires lp + pos + 5 <= n <= |r|
    ensures var whole := r[..n]; r[..lp] + CutAt(r[lp..n], pos) == whole[..lp] + CutAt(whole[lp..], pos)
  {
    hide CutAt;
    SliceOf(r, n, lp);
  }

  lemma ReframedIs(s: seq<byte>, r: seq<byte>, n0: nat, sizes: seq<nat>)
    requires 5 <= n0 && |r| == |s| && n0 + 5 * |sizes| <= |s| && Sum(sizes) <= n0 - 5 && Sum(sizes) <= SizeAt(s, 3)
    ensures Reframed(s, r, n0, sizes) <==>
      && r[..n0 + 5 * |sizes|] == Framed(s[..3], SizeAt(s, 3), s[5..n0], sizes)
      && r[n0 + 5 * |sizes|..] == s[n0 + 5 * |sizes|..]
  {
  }

  // A cut in the last of some fragments makes one more of them.
  lemma FramesCut(kind: seq<byte>, size: nat, body: seq<byte>, sizes: seq<nat>, pos: nat)
    requires |kind| == 3 && Sum(sizes) + pos <= size < 0x10000 && Sum(sizes) + pos <= |body|
    ensures Sum(sizes + [pos]) == Sum(sizes) + pos
    ensures var lp, whole := Sum(sizes) + 5 * |sizes|, Framed(kind, size, body, sizes);
      whole[..lp] + CutAt(whole[lp..], pos) == Framed(kind, size, body, sizes + [pos])
  {
    hide Be16, SizeAt, Framed, Sum, CutAt, Header;
    SumSnoc(sizes, pos);
    CutLast(kind, size, body, sizes, pos);
    CutIsFramed(kind, size - Sum(sizes), body[Sum(sizes)..], pos);
  }

  // The parts of the buffer after a cut inside a record.
  lemma CutParts(s: seq<byte>, r: seq<byte>, lp: nat, n: nat, pos: nat)
    requires lp + pos + 5 <= n && n + 5 <= |r| == |s| && SizeAt(r, lp + 3) >= pos && r[n..] == s[n..]
    ensures var t := CutOnce(r, lp, n, pos);
      t[..n + 5] == r[..lp] + CutAt(r[lp..n], pos) && t[n + 5..] == s[n + 5..]
  {
    hide SizeAt, CutAt;
    assert s[n + 5..] == s[n..][5..] && r[n + 5..] == r[n..][5..];
  }

  // A cut outside the last fragment, and whatever is cut behind it.
  lemma CutOutside(s: seq<byte>, r: seq<byte>, n0: nat, sizes: seq<nat>, pos: nat)
    requires 6 <= n0 && |r| == |s| && n0 + 5 * |sizes| + 5 <= |s| && Sum(sizes) + pos <= n0 - 5
    requires Sum(sizes) <= SizeAt(s, 3) < Sum(sizes) + pos && Reframed(s, r, n0, sizes)
    ensures Sum(sizes + [pos]) == Sum(sizes) + pos
    ensures MissedAt(s, CutOnce(r, Sum(sizes) + 5 * |sizes|, n0 + 5 * |sizes|, pos), sizes + [pos], |sizes|)
  {
    hide SizeAt, Sum, Reframed, CutAt, Framed, Header, Be16, CutOnce;
    SumSnoc(sizes, pos);
    var all := sizes + [pos];
    assert all[..|sizes|] == sizes && all[|sizes|] == pos;
    LastFragment(s, r, n0, sizes);
    NotCut(r, Sum(sizes) + 5 * |sizes|, n0 + 5 * |sizes|, pos);
  }

  lemma NotCut(r: seq<byte>, lp: nat, n: nat, pos: nat)
    requires lp + pos + 5 <= n && n + 5 <= |r| && SizeAt(r, lp + 3) < pos
    ensures CutOnce(r, lp, n, pos) == r
  {
  }

  lemma CutBehind(s: seq<byte>, r: seq<byte>, n0: nat, sizes: seq<nat>, pos: nat, k: nat)
    requires 6 <= n0 && |r| == |s| && n0 + 5 * |sizes| + 5 <= |s| && Sum(sizes) + pos <= n0 - 5
    requires k < |sizes| && MissedAt(s, r, sizes, k)
    ensures MissedAt(s, CutOnce(r, Sum(sizes) + 5 * |sizes|, n0 + 5 * |sizes|, pos), sizes + [pos], k)
  {
    hide Sum, CutAt, CutOnce, SizeAt;
    SumOfPrefix(sizes, k);
    assert (sizes + [pos])[..k] == sizes[..k];
    CutKeepsFront(r, Sum(sizes) + 5 * |sizes|, n0 + 5 * |sizes|, pos, Sum(sizes[..k]) + 5 * k);
  }

  // A cut leaves the headers before it alone.
  lemma CutKeepsFront(r: seq<byte>, lp: nat, n: nat, pos: nat, h: nat)
    requires lp + pos + 5 <= n && n + 5 <= |r| && h + 5 <= lp
    ensures SizeAt(CutOnce(r, lp, n, pos), h + 3) == SizeAt(r, h + 3)
  {
    hide CutAt, Be16;
    var t := CutOnce(r, lp, n, pos);
    assert t[h + 3] == r[h + 3] && t[h + 4] == r[h + 4];
  }

  lemma {:induction false} SumOfPrefix(s: seq<nat>, k: nat)
    requires k < |s|
    ensures Sum(s[..k]) + s[k] <= Sum(s)
    decreases |s|
  {
    if k > 0 {
      SumOfPrefix(s[1..], k - 1);
      assert s[..k][1..] == s[1..][..k - 1];
    }
  }

  lemma {:induction false} CutsCutUp(s: seq<byte>, n0: nat, sizes: seq<nat>)
    requires 6 <= n0 && Sum(sizes) + 5 <= n0 && n0 + 5 * |sizes| <= |s|
    ensures CutUp(s, Cuts(s, n0, sizes), n0, sizes)
    decreases |sizes|
  {
    hide SizeAt, Reframed, MissedAt, CutOnce, Sum;
    if sizes == [] {
      CutUpBegins(s, n0);
    } else {
      var front, pos := sizes[..|sizes| - 1], sizes[|sizes| - 1];
      SumOfFront(sizes);
      CutsCutUp(s, n0, front);
      CutsSnoc(s, n0, front, pos);
      assert front + [pos] == sizes;
      CutStep(s, Cuts(s, n0, front), n0, front, pos);
    }
  }

  // One more cut of the buffer.
  lemma CutStep(s: seq<byte>, r: seq<byte>, n0: nat, sizes: seq<nat>, pos: nat)
    requires 6 <= n0 && |r| == |s| && n0 + 5 * |sizes| + 5 <= |s| && Sum(sizes) + pos <= n0 - 5
    requires CutUp(s, r, n0, sizes)
    ensures Sum(sizes + [pos]) == Sum(sizes) + pos
    ensures CutUp(s, CutOnce(r, Sum(sizes) + 5 * |sizes|, n0 + 5 * |sizes|, pos), n0, sizes + [pos])
  {
    SumSnoc(sizes, pos);
    hide SizeAt, Reframed, MissedAt, CutOnce, Sum;
    if Sum(sizes) + pos <= SizeAt(s, 3) {
      CutInside(s, r, n0, sizes, pos);
    } else if Sum(sizes) <= SizeAt(s, 3) {
      CutOutside(s, r, n0, sizes, pos);
    } else {
      var k: nat :| k < |sizes| && MissedAt(s, r, sizes, k);
      CutBehind(s, r, n0, sizes, pos, k);
    }
  }

  // What one turn of the loop of tamp comes to.
  datatype Turn = Cut(pos: nat) | Stop | ZeroDivision

  // One turn of the loop of tamp: find the place and cut there, or give up.
  method CutTurn(a: array<byte>, n0: nat, n: nat, lp: nat, rc: nat, part: Part, r: int, info: Info, rnd: nat)
    returns (turn: Turn)
    requires n == n0 + 5 * rc && lp + 5 <= n <= a.Length && r <= part.r
    modifies a
    ensures var place := CutPlace(part, part.r - r, rc, n0, lp, info, rnd);
      turn == if place.None? then ZeroDivision
              else if Stops(place, lp, n, a.Length) then Stop else Cut(place.value)
    ensures if turn.Cut? then a[..] == CutOnce(old(a[..]), lp, n, turn.pos - lp) else a[..] == old(a[..])
  {
    hide Recut, CutAt, SizeAt;
    var offset := GenOffset(part.pos, part.flag, n - rc * 5, lp, info, rnd);
    hide GenOffset;
    if offset.None? { return ZeroDivision; }
    var pos := rc * 5 + offset.value;
    if part.pos < 0 || part.flag != {} { pos := pos - 5; }
    pos := pos + part.s * (part.r - r);
    if pos < lp { return Stop; }
    ghost var s := a[..];
    assert s[lp..n] == a[lp..n];
    assert lp + (n - lp) == n;
    var cut := PartTls(a, lp, a.Length - lp, n - lp, pos - lp);
    if cut == 0 { return Stop; }
    CutOnceIs(s, a[..], lp, n, pos - lp);
    turn := Cut(pos);
  }

  lemma CutOnceIs(s: seq<byte>, t: seq<byte>, lp: nat, n: nat, pos: nat)
    requires lp + pos + 5 <= n && n + 5 <= |s|
    requires SizeAt(s[lp..n], 3) < pos ==> t == s
    requires SizeAt(s[lp..n], 3) >= pos ==> Recut(s, t, lp, n, pos)
    ensures t == CutOnce(s, lp, n, pos)
  {
    SizeInside(s, lp, n);
    hide SizeAt, CutAt;
    if SizeAt(s, lp + 3) >= pos { assert t == t[..lp] + t[lp..n + 5] + t[n + 5..]; }
  }

  // Where the plan ends.
  predicate Stops(place: Option<int>, lp: nat, n: nat, room: nat) {
    place.None? || place.value < lp || room < n + 5 || place.value + 5 > n
  }

  lemma PlanTurn(turns: seq<(Part, nat)>, rc: nat, n: nat, lp: nat, room: nat, info: Info, rnd: nat -> nat)
    requires turns != []
    ensures var place := CutPlace(turns[0].0, turns[0].1, rc, n, lp, info, rnd(rc));
      Plan(turns, rc, n, lp, room, info, rnd) ==
      if Stops(place, lp, n + 5 * rc, room) then []
      else [place.value - lp] + Plan(turns[1..], rc + 1, n, place.value + 5, room, info, rnd)
  {
  }

  lemma PlanAdvances(sizes: seq<nat>, turns: seq<(Part, nat)>, turn: (Part, nat), rest: seq<(Part, nat)>,
    rc: nat, n: nat, lp: nat, room: nat, info: Info, rnd: nat -> nat)
    requires turns == [turn] + rest
    ensures var place := CutPlace(turn.0, turn.1, rc, n, lp, info, rnd(rc));
      var all := sizes + Plan(turns, rc, n, lp, room, info, rnd);
      if Stops(place, lp, n + 5 * rc, room) then all == sizes
      else all == (sizes + [place.value - lp]) + Plan(rest, rc + 1, n, place.value + 5, room, info, rnd)
  {
    assert turns[1..] == rest;
    PlanTurn(turns, rc, n, lp, room, info, rnd);
  }

  // The plan ends in a division by zero.
  predicate DividesByZero(turns: seq<(Part, nat)>, n0: nat, sizes: seq<nat>, info: Info, rnd: nat -> nat) {
    var rc := |sizes|;
    && rc < |turns|
    && CutPlace(turns[rc].0, turns[rc].1, rc, n0, Sum(sizes) + 5 * rc, info, rnd(rc)).None?
  }

  // The tlsrec loop of tamp.  It either makes the cuts of the plan, each of which adds a header's
  // length to n, or divides by zero, and then nothing is said about the buffer.
  method TampRecords(a: array<byte>, n0: nat, parts: seq<Part>, info: Info, rnd: nat -> nat)
    returns (n: nat, divided: bool, ghost sizes: seq<nat>)
    requires n0 <= a.Length
    modifies a
    ensures sizes == if IsClientHello(old(a[..n0])) then Plan(Turns(parts), 0, n0, 0, a.Length, info, rnd) else []
    ensures divided <==> IsClientHello(old(a[..n0])) && DividesByZero(Turns(parts), n0, sizes, info, rnd)
    ensures sizes != [] ==> Sum(sizes) + 5 <= n0
    ensures n0 + 5 * |sizes| <= a.Length
    ensures !divided ==> n == n0 + 5 * |sizes|
    ensures !divided ==> a[..] == if sizes == [] then old(a[..]) else Cuts(old(a[..]), n0, sizes)
  {
    n, divided, sizes := n0, false, [];
    if n <= 5 || Word(a[0], a[1]) != 0x1603 || a[5] != 0x01 {
      assert !IsClientHello(a[..n0]);
      return;
    }
    n, divided, sizes := CutRecords(a, n0, parts, info, rnd);
  }

  method CutRecords(a: array<byte>, n0: nat, parts: seq<Part>, info: Info, rnd: nat -> nat)
    returns (n: nat, divided: bool, ghost sizes: seq<nat>)
    requires 6 <= n0 <= a.Length
    modifies a
    ensures sizes == Plan(Turns(parts), 0, n0, 0, a.Length, info, rnd)
    ensures divided <==> DividesByZero(Turns(parts), n0, sizes, info, rnd)
    ensures n == n0 + 5 * |sizes| <= a.Length && Sum(sizes) + 5 <= n0
    ensures a[..] == Cuts(old(a[..]), n0, sizes)
  {
    hide Plan, CutOnce, SizeAt, CutPlace, Turns, Repeats, Sum, TurnsLeft, Cuts, Recut, GenOffset;
    ghost var turns := Turns(parts);
    ghost var s := a[..];
    NothingCut(s, n0);
    n, sizes, divided := n0, [], false;
    var lp, i, r, rc := 0, 0, 0, 0;
    var part := Part(0, {}, 0, 0);
    TurnsBegin(parts, part);
    assert turns[0..] == turns;
    assert [] + Plan(turns, 0, n0, 0, a.Length, info, rnd) == Plan(turns, 0, n0, 0, a.Length, info, rnd);
    while r > 0 || i < |parts|
      invariant i <= |parts| && (r > 0 ==> r < part.r)
      invariant rc == |sizes| && n == n0 + 5 * rc <= a.Length && lp == Sum(sizes) + 5 * rc && lp + 5 <= n
      invariant !divided && rc <= |turns| && turns[rc..] == TurnsLeft(parts, i, part, r)
      invariant a[..] == Cuts(s, n0, sizes)
      invariant sizes + Plan(turns[rc..], rc, n0, lp, a.Length, info, rnd)
        == Plan(turns, 0, n0, 0, a.Length, info, rnd)
      decreases |turns| - rc
    {
      if r <= 0 {
        NewPart(parts, i, part, r);
        part := parts[i];
        r := part.r;
        i := i + 1;
      } else {
        SamePart(parts, i, part, r);
      }
      assert turns[rc..] == [(part, part.r - r)] + TurnsLeft(parts, i, part, r - 1);
      FirstTurn(turns, rc, (part, part.r - r), TurnsLeft(parts, i, part, r - 1));
      var turn := CutTurn(a, n0, n, lp, rc, part, r, info, rnd(rc));
      PlanAdvances(sizes, turns[rc..], turns[rc], turns[rc + 1..], rc, n0, lp, a.Length, info, rnd);
      if !turn.Cut? {
        divided := turn.ZeroDivision?;
        return;
      }
      CutsSnoc(s, n0, sizes, turn.pos - lp);
      sizes := sizes + [turn.pos - lp];
      n := n + 5;
      lp := turn.pos + 5;
      rc := rc + 1;
      r := r - 1;
    }
    NothingLeft(parts, part, r);
    NoPlan(rc, n0, lp, a.Length, info, rnd);
  }

  lemma FirstTurn(turns: seq<(Part, nat)>, rc: nat, turn: (Part, nat), rest: seq<(Part, nat)>)
    requires rc <= |turns| && turns[rc..] == [turn] + rest
    ensures rc < |turns| && turns[rc] == turn && turns[rc + 1..] == rest
  {
    assert turns[rc..][0] == turn;
    assert turns[rc + 1..] == turns[rc..][1..];
  }

  lemma TurnsBegin(parts: seq<Part>, part: Part)
    ensures TurnsLeft(parts, 0, part, 0) == Turns(parts)
  {
    assert parts[0..] == parts;
  }

  lemma NothingLeft(parts: seq<Part>, part: Part, r: int)
    requires r <= 0
    ensures TurnsLeft(parts, |parts|, part, r) == []
  {
    assert parts[|parts|..] == [];
  }

  lemma NoPlan(rc: nat, n: nat, lp: nat, room: nat, info: Info, rnd: nat -> nat)
    ensures Plan([], rc, n, lp, room, info, rnd) == []
  {
  }

  lemma NothingCut(s: seq<byte>, n0: nat)
    requires 5 <= n0 <= |s|
    ensures Sum([]) == 0 && Cuts(s, n0, []) == s
  {
  }

  // Cuts of these sizes leave the first record in fragments of these sizes, with its type and
  // version, if and only if they all lie within it; they do when the request ends with that record
  // or before.  A cut outside the record writes no header, and later ones only touch what is
  // behind it.
  lemma FragmentsExactly(s: seq<byte>, n0: nat, sizes: seq<nat>)
    requires 6 <= n0 && Sum(sizes) + 5 <= n0 && n0 + 5 * |sizes| <= |s|
    ensures Starts(Cuts(s, n0, sizes)[..n0 + 5 * |sizes|], s[..3], sizes) <==> Sum(sizes) <= SizeAt(s, 3)
    ensures n0 <= 5 + SizeAt(s, 3) ==> Sum(sizes) <= SizeAt(s, 3)
  {
    hide SizeAt, Reframed, Cuts, Sum;
    if Sum(sizes) <= SizeAt(s, 3) {
      CuttingPreservesPayload(s, n0, sizes);
    } else {
      var r := Cuts(s, n0, sizes);
      CutsCutUp(s, n0, sizes);
      var k: nat :| k < |sizes| && MissedAt(s, r, sizes, k);
      SumOfPrefix(sizes, k);
      PrefixSize(r, n0 + 5 * |sizes|, Sum(sizes[..k]) + 5 * k);
      if Starts(r[..n0 + 5 * |sizes|], s[..3], sizes) {
        StartsAt(r[..n0 + 5 * |sizes|], s[..3], sizes, k);
        assert false;
      }
    }
  }

  lemma PrefixSize(r: seq<byte>, n: nat, lp: nat)
    requires lp + 5 <= n <= |r|
    ensures SizeAt(r[..n], lp + 3) == SizeAt(r, lp + 3)
  {
  }

  // Fragment number k of a stream that starts with fragments of the given sizes.
  lemma {:induction false} StartsAt(x: seq<byte>, kind: seq<byte>, sizes: seq<nat>, k: nat)
    requires Starts(x, kind, sizes) && k < |sizes|
    ensures var lp := Sum(sizes[..k]) + 5 * k;
      lp + 5 <= |x| && SizeAt(x, lp + 3) == sizes[k]
    decreases k
  {
    if k == 0 {
      assert sizes[..0] == [];
    } else {
      var y := x[5 + sizes[0]..];
      StartsAt(y, kind, sizes[1..], k - 1);
      assert sizes[..k][1..] == sizes[1..][..k - 1] && sizes[..k][0] == sizes[0];
      var lp := Sum(sizes[1..][..k - 1]) + 5 * (k - 1);
      assert y[lp + 3] == x[5 + sizes[0] + lp + 3] && y[lp + 4] == x[5 + sizes[0] + lp + 4];
    }
  }

  // The receiver gets the same bytes, in fragments of the planned sizes, when all cuts lie within
  // the first record.
  lemma CuttingPreservesPayload(s: seq<byte>, n0: nat, sizes: seq<nat>)
    requires 6 <= n0 && Sum(sizes) + 5 <= n0 && n0 + 5 * |sizes| <= |s|
    requires Sum(sizes) <= SizeAt(s, 3)
    ensures var r := Cuts(s, n0, sizes);
      && Payload(r[..n0 + 5 * |sizes|]) == Payload(s[..n0])
      && Starts(r[..n0 + 5 * |sizes|], s[..3], sizes)
      && r[n0 + 5 * |sizes|..] == s[n0 + 5 * |sizes|..]
      && var lp := Sum(sizes) + 5 * |sizes|;
         r[lp..lp + 3] == s[..3] && SizeAt(r, lp + 3) == SizeAt(s, 3) - Sum(sizes)
  {
    hide Framed, Payload, Starts, Be16, Sum, SizeAt, Cuts;
    CutsCutUp(s, n0, sizes);
    var r := Cuts(s, n0, sizes);
    SplittingPreservesPayload(s[..3], SizeAt(s, 3), s[5..n0], sizes);
    WholeRequest(s, n0);
    LastHeader(s, r, n0, sizes);
  }

  lemma WholeRequest(s: seq<byte>, n0: nat)
    requires 6 <= n0 <= |s|
    ensures Sum([]) == 0 && Framed(s[..3], SizeAt(s, 3), s[5..n0], []) == s[..n0]
  {
    CutUpBegins(s, n0);
  }

  lemma LastHeader(s: seq<byte>, r: seq<byte>, n0: nat, sizes: seq<nat>)
    requires 6 <= n0 && |r| == |s| && n0 + 5 * |sizes| <= |s| && Sum(sizes) <= n0 - 5
    requires Sum(sizes) <= SizeAt(s, 3)
    requires r[..n0 + 5 * |sizes|] == Framed(s[..3], SizeAt(s, 3), s[5..n0], sizes)
    ensures var lp := Sum(sizes) + 5 * |sizes|;
      r[lp..lp + 3] == s[..3] && SizeAt(r, lp + 3) == SizeAt(s, 3) - Sum(sizes)
  {
    hide Be16, Framed, Sum, Header, CutsLast, SizeAt;
    var kind, size, body := s[..3], SizeAt(s, 3), s[5..n0];
    var lp, n := Sum(sizes) + 5 * |sizes|, n0 + 5 * |sizes|;
    LastPart(kind, size, body, sizes);
    PrefixAgrees(r, n, Framed(kind, size, body, sizes), lp);
  }

  lemma LastPart(kind: seq<byte>, size: nat, body: seq<byte>, sizes: seq<nat>)
    requires |kind| == 3 && Sum(sizes) <= size < 0x10000 && Sum(sizes) <= |body|
    ensures var lp, whole := Sum(sizes) + 5 * |sizes|, Framed(kind, size, body, sizes);
      lp + 5 <= |whole| && whole[lp..lp + 3] == kind && SizeAt(whole, lp + 3) == size - Sum(sizes)
  {
    hide Be16, Framed, Sum, Header, SizeAt;
    CutLast(kind, size, body, sizes, 0);
    HeadOfRest(kind, size - Sum(sizes), body[Sum(sizes)..], Framed(kind, size, body, sizes), Sum(sizes) + 5 * |sizes|);
  }

  lemma PrefixAgrees(r: seq<byte>, n: nat, whole: seq<byte>, lp: nat)
    requires lp + 5 <= n <= |r| && r[..n] == whole
    ensures r[lp..lp + 3] == whole[lp..lp + 3] && SizeAt(r, lp + 3) == SizeAt(whole, lp + 3)
  {
    hide Word;
    assert r[lp + 3] == r[..n][lp + 3] && r[lp + 4] == r[..n][lp + 4];
    assert r[lp..lp + 3] == r[..n][lp..lp + 3];
  }

  lemma HeadOfRest(kind: seq<byte>, size: nat, body: seq<byte>, whole: seq<byte>, lp: nat)
    requires |kind| == 3 && size < 0x10000 && lp + 5 <= |whole| && whole[lp..] == Header(kind, size) + body
    ensures whole[lp..lp + 3] == kind && SizeAt(whole, lp + 3) == size
  {
    HeaderAt(kind, size, body);
    assert whole[lp..lp + 3] == whole[lp..][..3];
    assert whole[lp + 3] == whole[lp..][3] && whole[lp + 4] == whole[lp..][4];
  }

  // A ClientHello whose first record holds two bytes.
  const SHORT_FIRST: seq<byte> := [0x16, 3, 1, 0, 2, 1, 0, 0x16, 3, 1, 0, 2, 0, 0]

  // A request with data behind its first record can be cut outside it: the plan asks for three
  // bytes of a record of two, part_tls answers n, and tamp adds five to n although no header has
  // been written.
  lemma CutMayMissRecord(room: seq<byte>)
    requires |room| == 5
    ensures IsClientHello(SHORT_FIRST) && SizeAt(SHORT_FIRST, 3) == 2
    ensures var s := SHORT_FIRST + room;
      && Plan(Turns([Part(3, {}, 1, 0)]), 0, 14, 0, |s|, Info(false, 0, 0), i => 0) == [3]
      && Sum([3]) == 3 && Cuts(s, 14, [3]) == s && !Starts(s, s[..3], [3])
  {
    var s := SHORT_FIRST + room;
    OneTurn(Part(3, {}, 1, 0));
    PlanTurn([(Part(3, {}, 1, 0), 0)], 0, 14, 0, |s|, Info(false, 0, 0), i => 0);
    assert s[3] == 0 && s[4] == 2;
    SumSnoc([], 3);
    assert [] + [3] == [3];
    assert [3][..0] == [];
  }

  lemma OneTurn(part: Part)
    requires part.r <= 1
    ensures Turns([part]) == [(part, 0)]
  {
    assert Repeats(part, 0) == [(part, 0)] + Repeats(part, 1);
    assert Turns([part]) == Repeats(part, 0) + Turns([]);
  }

  // The loop of tamp divides by zero exactly when it reaches a random offset counted from a last
  // fragment that begins where the data end, or from an empty host name.
  lemma ZeroDivisionExactly(turns: seq<(Part, nat)>, n0: nat, sizes: seq<nat>, info: Info, rnd: nat -> nat)
    ensures DividesByZero(turns, n0, sizes, info, rnd) <==>
      && |sizes| < |turns|
      && var flag := turns[|sizes|].0.flag;
      && Rand in flag
      && if Sni !in flag && Host !in flag then Sum(sizes) + 5 * |sizes| == n0
         else End !in flag && Mid !in flag && info.hostPos != 0 && info.hostLen == 0 && (Sni in flag ==> info.isHttps)
  {
  }

  // It can: after a cut at the end of twenty bytes of data, the next fragment begins behind them.
  lemma RandomCutAfterEnd(rnd: nat -> nat)
    ensures var turns := Turns([Part(0, {End}, 1, 0), Part(0, {Rand}, 1, 0)]);
      && Plan(turns, 0, 20, 0, 100, Info(false, 0, 0), rnd) == [15]
      && DividesByZero(turns, 20, [15], Info(false, 0, 0), rnd)
  {
    var p, q := Part(0, {End}, 1, 0), Part(0, {Rand}, 1, 0);
    OneTurn(q);
    assert [p, q][1..] == [q] && Repeats(p, 0) == [(p, 0)] + Repeats(p, 1);
    TurnsUnfold([p, q]);
    var turns := Turns([p, q]);
    assert turns == [(p, 0), (q, 0)];
    PlanTurn(turns, 0, 20, 0, 100, Info(false, 0, 0), rnd);
    assert turns[1..] == [(q, 0)];
    PlanTurn(turns[1..], 1, 20, 20, 100, Info(false, 0, 0), rnd);
    SumSnoc([], 15);
    assert [] + [15] == [15];
  }
}
