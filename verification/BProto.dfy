// BProto messages: the generated writer and parser of msg_youconnect
// (badvpn/generated/bproto_msgproto.h).
//
// A message is a sequence of entries, each with the number of its field, a type, and a value.
// The parser checks the whole buffer once, remembers for each field where its first entry begins
// and its last one ends, and then walks that stretch without checking again.

module BProto {
  import opened Common

  // The codes of BProto.h, which is not part of the repository.
  const TYPE_UINT8: nat := 1
  const TYPE_UINT16: nat := 2
  const TYPE_UINT32: nat := 3
  const TYPE_UINT64: nat := 4
  const TYPE_DATA: nat := 5
  const TYPE_CONSTDATA: nat := 6

  const HEADER: nat := 4       // sizeof(struct BProto_header_s)
  const DATA_HEADER: nat := 4  // sizeof(struct BProto_data_header_s)

  // ---------------------------------------------------------------------------------------
  // Numbers
  // ---------------------------------------------------------------------------------------

  function Power(n: nat): (r: nat)
    ensures r > 0
  {
    if n == 0 then 1 else 256 * Power(n - 1)
  }

  // A number in n bytes, the lowest first.
  function Le(x: nat, n: nat): (r: seq<byte>)
    ensures |r| == n
  {
    if n == 0 then [] else [x % 256] + Le(x / 256, n - 1)
  }

  function FromLe(s: seq<byte>): nat {
    if s == [] then 0 else
      var low: nat := s[0];
      low + 256 * FromLe(s[1..])
  }

  lemma {:induction false} LeRoundTrip(x: nat, n: nat)
    requires x < Power(n)
    ensures FromLe(Le(x, n)) == x
  {
    if n > 0 {
      assert x / 256 < Power(n - 1);
      LeRoundTrip(x / 256, n - 1);
      assert Le(x, n)[1..] == Le(x / 256, n - 1);
    }
  }

  lemma {:induction false} FromLeRoundTrip(s: seq<byte>)
    ensures FromLe(s) < Power(|s|) && Le(FromLe(s), |s|) == s
  {
    if s != [] {
      FromLeRoundTrip(s[1..]);
      LowByte(s[0], FromLe(s[1..]));
    }
  }

  lemma LowByte(low: byte, rest: nat)
    ensures (low + 256 * rest) % 256 == low && (low + 256 * rest) / 256 == rest
  {
  }

  lemma Powers()
    ensures Power(2) == 0x1_0000 && Power(4) == 0x1_0000_0000 && Power(8) == 0x1_0000_0000_0000_0000
  {
    assert Power(1) == 256 && Power(3) == 0x100_0000;
    assert Power(5) == 256 * Power(4) && Power(6) == 256 * Power(5) && Power(7) == 256 * Power(6);
  }

  // ---------------------------------------------------------------------------------------
  // Entries
  // ---------------------------------------------------------------------------------------

  datatype Entry = Entry(id: nat, kind: nat, body: seq<byte>)

  // The size of a value, for the types that fix it.
  function FixedSize(kind: nat): Option<nat> {
    if kind == TYPE_UINT8 then Some(1)
    else if kind == TYPE_UINT16 then Some(2)
    else if kind == TYPE_UINT32 then Some(4)
    else if kind == TYPE_UINT64 then Some(8)
    else None
  }

  predicate IsData(kind: nat) {
    kind == TYPE_DATA || kind == TYPE_CONSTDATA
  }

  ghost predicate WellFormed(e: Entry) {
    && e.id < Power(2)
    && (if IsData(e.kind) then |e.body| < Power(4) else FixedSize(e.kind) == Some(|e.body|))
  }

  function Serialize(e: Entry): seq<byte> {
    Le(e.id, 2) + Le(e.kind, 2) + (if IsData(e.kind) then Le(|e.body|, 4) else []) + e.body
  }

  function Bytes(entries: seq<Entry>): seq<byte> {
    if entries == [] then [] else Serialize(entries[0]) + Bytes(entries[1..])
  }

  // The entry at the front of a buffer.
  function Front(s: seq<byte>): (r: Option<Entry>) {
    if |s| < HEADER then None
    else
      var id, kind := FromLe(s[..2]), FromLe(s[2..4]);
      if IsData(kind) then
        if |s| < HEADER + DATA_HEADER || |s| < HEADER + DATA_HEADER + FromLe(s[4..8]) then None
        else Some(Entry(id, kind, s[8..8 + FromLe(s[4..8])]))
      else match FixedSize(kind)
        case None => None
        case Some(n) => if |s| < HEADER + n then None else Some(Entry(id, kind, s[4..4 + n]))
  }

  function Size(e: Entry): (r: nat)
    ensures r >= HEADER
  {
    HEADER + (if IsData(e.kind) then DATA_HEADER else 0) + |e.body|
  }

  // All entries of a buffer, if it is made of entries.
  function Parse(s: seq<byte>): Option<seq<Entry>>
    decreases |s|
  {
    if s == [] then Some([])
    else match Front(s)
      case None => None
      case Some(e) =>
        FrontFits(s);
        match Parse(s[Size(e)..])
        case None => None
        case Some(rest) => Some([e] + rest)
  }

  lemma FrontFits(s: seq<byte>)
    ensures Front(s).Some? ==> Size(Front(s).value) <= |s|
  {
  }

  lemma SerializedSize(e: Entry)
    ensures |Serialize(e)| == Size(e)
  {
  }

  // Reading an entry that has been written.
  lemma FrontOfSerialized(e: Entry, rest: seq<byte>)
    requires WellFormed(e)
    ensures Front(Serialize(e) + rest) == Some(e)
    ensures (Serialize(e) + rest)[Size(e)..] == rest
  {
    Powers();
    KindIsSmall(e);
    LeRoundTrip(e.id, 2);
    LeRoundTrip(e.kind, 2);
    if IsData(e.kind) { LeRoundTrip(|e.body|, 4); }
    hide Le, FromLe, Power, Serialize, IsData;
    SerializedSize(e);
    PartsStand(e, rest);
  }

  // Where the parts of an entry stand.
  lemma PartsStand(e: Entry, rest: seq<byte>)
    ensures var s := Serialize(e) + rest;
      && |s| >= Size(e) && s[..2] == Le(e.id, 2) && s[2..4] == Le(e.kind, 2)
      && if IsData(e.kind) then s[4..8] == Le(|e.body|, 4) && s[8..8 + |e.body|] == e.body
         else s[4..4 + |e.body|] == e.body
  {
    hide Le, IsData;
  }

  lemma KindIsSmall(e: Entry)
    requires WellFormed(e)
    ensures e.kind <= 6
  {
  }

  // What is read is what is there.
  lemma FrontIsThere(s: seq<byte>)
    requires Front(s).Some?
    ensures var e := Front(s).value;
      WellFormed(e) && Size(e) <= |s| && s[..Size(e)] == Serialize(e)
  {
    FromLeRoundTrip(s[..2]);
    FromLeRoundTrip(s[2..4]);
    if |s| >= 8 { FromLeRoundTrip(s[4..8]); }
    hide Le, FromLe, Power;
    var e := Front(s).value;
    if IsData(e.kind) { FourParts(s, 2, 4, 8, Size(e)); } else { FourParts(s, 2, 4, 4, Size(e)); }
  }

  lemma FourParts(s: seq<byte>, i: nat, j: nat, k: nat, n: nat)
    requires i <= j <= k <= n <= |s|
    ensures s[..n] == s[..i] + s[i..j] + s[j..k] + s[k..n]
  {
    assert s[..i] + s[i..j] == s[..j];
    assert s[..j] + s[j..k] == s[..k];
  }

  ghost predicate AllWellFormed(entries: seq<Entry>) {
    forall i :: 0 <= i < |entries| ==> WellFormed(entries[i])
  }

  // Parsing undoes writing, and writing undoes parsing: a buffer has at most one reading.
  lemma {:induction false} ParseOfBytes(entries: seq<Entry>)
    requires AllWellFormed(entries)
    ensures Parse(Bytes(entries)) == Some(entries)
  {
    if entries != [] {
      var e, rest := entries[0], Bytes(entries[1..]);
      assert WellFormed(entries[0]);
      FrontOfSerialized(e, rest);
      ParseOfBytes(entries[1..]);
      SerializedSize(e);
      assert [e] + entries[1..] == entries;
    }
  }

  lemma {:induction false} BytesOfParse(s: seq<byte>)
    requires Parse(s).Some?
    ensures AllWellFormed(Parse(s).value) && Bytes(Parse(s).value) == s
    decreases |s|
  {
    hide Front, Serialize, WellFormed, Size;
    if s != [] {
      FrontIsThere(s);
      var e := Front(s).value;
      BytesOfParse(s[Size(e)..]);
      assert s == s[..Size(e)] + s[Size(e)..];
      assert Parse(s).value[1..] == Parse(s[Size(e)..]).value;
    }
  }

  lemma {:induction false} BytesCat(a: seq<Entry>, b: seq<Entry>)
    ensures Bytes(a + b) == Bytes(a) + Bytes(b)
  {
    if a == [] {
      assert a + b == b;
    } else {
      BytesCat(a[1..], b);
      assert (a + b)[1..] == a[1..] + b;
      Regroup(Serialize(a[0]), Bytes(a[1..]), Bytes(b));
    }
  }

  // ---------------------------------------------------------------------------------------
  // The message
  // ---------------------------------------------------------------------------------------

  // The fields of msg_youconnect: one or more addr, at most one key, at most one password.
  const ADDR: nat := 1
  const KEY: nat := 2
  const PASSWORD: nat := 3

  type Field = f: nat | 1 <= f <= 3 witness 1

  predicate KnownField(id: nat, kind: nat) {
    (kind == TYPE_UINT64 && id == PASSWORD) || (kind == TYPE_DATA && (id == ADDR || id == KEY))
  }

  predicate Known(e: Entry) {
    KnownField(e.id, e.kind)
  }

  ghost predicate AllKnown(entries: seq<Entry>) {
    forall i :: 0 <= i < |entries| ==> Known(entries[i])
  }

  // The values of a field, in the order in which they come.
  function Values(entries: seq<Entry>, f: nat): seq<seq<byte>> {
    if entries == [] then []
    else (if entries[0].id == f then [entries[0].body] else []) + Values(entries[1..], f)
  }

  predicate CountsOk(entries: seq<Entry>) {
    |Values(entries, ADDR)| >= 1 && |Values(entries, KEY)| <= 1 && |Values(entries, PASSWORD)| <= 1
  }

  // A buffer the parser accepts.
  ghost predicate Accepted(s: seq<byte>) {
    Parse(s).Some? && AllKnown(Parse(s).value) && CountsOk(Parse(s).value)
  }

  lemma {:induction false} ValuesCat(a: seq<Entry>, b: seq<Entry>, f: nat)
    ensures Values(a + b, f) == Values(a, f) + Values(b, f)
  {
    if a == [] {
      assert a + b == b;
    } else {
      ValuesCat(a[1..], b, f);
      assert (a + b)[1..] == a[1..] + b && (a + b)[0] == a[0];
      Regroup(if a[0].id == f then [a[0].body] else [], Values(a[1..], f), Values(b, f));
    }
  }

  lemma ValuesSnoc(a: seq<Entry>, e: Entry, f: nat)
    ensures Values(a + [e], f) == Values(a, f) + if e.id == f then [e.body] else []
  {
    ValuesCat(a, [e], f);
    assert Values([e], f) == (if e.id == f then [e.body] else []) + Values([], f);
  }

  // --- the stretch of a field ---

  // addr_start, addr_span and addr_pos, and so on
  datatype Cursor = Cursor(start: nat, span: nat, pos: nat)

  // The cursor of a field once these entries of a buffer of `len` bytes have been seen.
  function CursorOf(entries: seq<Entry>, f: nat, len: nat): Cursor
    decreases |entries|
  {
    if entries == [] then Cursor(len, 0, 0)
    else
      var init, e := entries[..|entries| - 1], entries[|entries| - 1];
      var c := CursorOf(init, f, len);
      if e.id != f then c
      else
        var start := if c.start == len then |Bytes(init)| else c.start;
        c.(start := start, span := Max(0, |Bytes(entries)| - start))
  }

  // A field without entries has an empty stretch at the end of the buffer; any other has one
  // from the beginning of its first entry, number a, to the end of its last one, number b - 1.
  ghost predicate Stretch(entries: seq<Entry>, f: nat, len: nat, c: Cursor, a: nat, b: nat) {
    && a <= b <= |entries|
    && (a == b ==> c.start == len && c.span == 0 && Values(entries, f) == [])
    && (a < b ==>
          && c.start == |Bytes(entries[..a])| && c.start + c.span == |Bytes(entries[..b])|
          && entries[b - 1].id == f
          && Values(entries[..a], f) == [] && Values(entries[b..], f) == [])
  }

  lemma BytesGrow(entries: seq<Entry>, i: nat, j: nat)
    requires i <= j <= |entries|
    ensures |Bytes(entries[..j])| == |Bytes(entries[..i])| + |Bytes(entries[i..j])|
    ensures i < j ==> |Bytes(entries[i..j])| >= HEADER
  {
    BytesCat(entries[..i], entries[i..j]);
    assert entries[..j] == entries[..i] + entries[i..j];
    if i < j {
      SerializedSize(entries[i]);
      assert entries[i..j][0] == entries[i];
    }
  }

  lemma CursorSnoc(init: seq<Entry>, e: Entry, f: nat, len: nat)
    ensures var c := CursorOf(init, f, len);
      CursorOf(init + [e], f, len) ==
      if e.id != f then c
      else
        var start := if c.start == len then |Bytes(init)| else c.start;
        c.(start := start, span := Max(0, |Bytes(init + [e])| - start))
  {
    assert (init + [e])[..|init|] == init;
  }

  // An entry of another field does not change the stretch.
  lemma StretchOther(init: seq<Entry>, e: Entry, f: nat, len: nat, c: Cursor, a: nat, b: nat)
    requires Stretch(init, f, len, c, a, b) && e.id != f
    ensures Stretch(init + [e], f, len, c, a, b)
  {
    hide Bytes, Values;
    ValuesSnoc(init, e, f);
    if a < b {
      assert (init + [e])[..a] == init[..a] && (init + [e])[..b] == init[..b];
      assert (init + [e])[b..] == init[b..] + [e];
      ValuesSnoc(init[b..], e, f);
    }
  }

  // The first entry of the field, and a further one.
  lemma StretchFirst(init: seq<Entry>, e: Entry, f: nat, len: nat, c: Cursor)
    requires e.id == f && Values(init, f) == []
    requires c.start == |Bytes(init)| && c.start + c.span == |Bytes(init + [e])|
    ensures Stretch(init + [e], f, len, c, |init|, |init| + 1)
  {
    assert (init + [e])[..|init|] == init && (init + [e])[..|init| + 1] == init + [e];
    assert (init + [e])[|init| + 1..] == [];
  }

  lemma StretchNext(init: seq<Entry>, e: Entry, f: nat, len: nat, c: Cursor, d: Cursor, a: nat, b: nat)
    requires Stretch(init, f, len, c, a, b) && a < b && e.id == f
    requires d.start == c.start && d.start + d.span == |Bytes(init + [e])|
    ensures Stretch(init + [e], f, len, d, a, |init| + 1)
  {
    assert (init + [e])[..a] == init[..a] && (init + [e])[..|init| + 1] == init + [e];
    assert (init + [e])[|init| + 1..] == [];
  }

  lemma {:induction false} StretchExists(entries: seq<Entry>, f: nat, len: nat) returns (a: nat, b: nat)
    requires |Bytes(entries)| <= len
    ensures Stretch(entries, f, len, CursorOf(entries, f, len), a, b)
    ensures CursorOf(entries, f, len).pos == 0
    ensures a < b <==> Values(entries, f) != []
    decreases |entries|
  {
    if entries == [] {
      a, b := 0, 0;
    } else {
      var n := |entries| - 1;
      var init, e := entries[..n], entries[n];
      assert entries == init + [e] && entries[..n + 1] == entries;
      BytesGrow(entries, n, n + 1);
      a, b := StretchExists(init, f, len);
      CursorSnoc(init, e, f, len);
      ValuesSnoc(init, e, f);
      hide Bytes, Values, CursorOf;
      var c, d := CursorOf(init, f, len), CursorOf(entries, f, len);
      if e.id != f {
        StretchOther(init, e, f, len, c, a, b);
      } else if a == b {
        StretchFirst(init, e, f, len, d);
        a, b := n, n + 1;
      } else {
        StretchInside(init, f, len, c, a, b);
        StretchNext(init, e, f, len, c, d, a, b);
        b := n + 1;
      }
    }
  }

  // The beginning of a stretch that is there cannot be taken for the mark of one that is not.
  lemma StretchInside(entries: seq<Entry>, f: nat, len: nat, c: Cursor, a: nat, b: nat)
    requires Stretch(entries, f, len, c, a, b) && a < b
    ensures c.start < |Bytes(entries)|
  {
    BytesGrow(entries, a, b);
    BytesGrow(entries, b, |entries|);
    assert entries[..|entries|] == entries;
  }

  // ---------------------------------------------------------------------------------------
  // The parser
  // ---------------------------------------------------------------------------------------

  // What is left of a buffer behind its first entries.
  lemma BufferFrom(s: seq<byte>, entries: seq<Entry>, k: nat)
    requires Parse(s) == Some(entries) && k <= |entries|
    ensures |Bytes(entries[..k])| <= |s| && s[|Bytes(entries[..k])|..] == Bytes(entries[k..])
  {
    hide Bytes, Parse;
    BytesOfParse(s);
    BytesCat(entries[..k], entries[k..]);
    assert entries == entries[..k] + entries[k..];
    Behind(Bytes(entries[..k]), Bytes(entries[k..]));
  }

  lemma Behind(a: seq<byte>, b: seq<byte>)
    ensures (a + b)[|a|..] == b
  {
  }

  // The entry that begins where the first k end.
  lemma EntryHere(s: seq<byte>, entries: seq<Entry>, k: nat)
    requires Parse(s) == Some(entries) && k < |entries|
    ensures var at := |Bytes(entries[..k])|;
      && at <= |s| && Front(s[at..]) == Some(entries[k])
      && at + Size(entries[k]) == |Bytes(entries[..k + 1])| <= |s|
  {
    hide Parse, Front, WellFormed, Serialize, Size, Bytes;
    BytesOfParse(s);
    BufferFrom(s, entries, k);
    BufferFrom(s, entries, k + 1);
    var e := entries[k];
    BytesUnfold(entries, k);
    FrontOfSerialized(e, Bytes(entries[k + 1..]));
    BytesGrow(entries, k, k + 1);
    assert entries[k..k + 1] == [e];
    OneEntry(e);
  }

  lemma BytesUnfold(entries: seq<Entry>, k: nat)
    requires k < |entries|
    ensures Bytes(entries[k..]) == Serialize(entries[k]) + Bytes(entries[k + 1..])
  {
    assert entries[k..][0] == entries[k] && entries[k..][1..] == entries[k + 1..];
  }

  lemma OneEntry(e: Entry)
    ensures Bytes([e]) == Serialize(e) && |Bytes([e])| == Size(e)
  {
    assert Bytes([e]) == Serialize(e) + Bytes([]);
    SerializedSize(e);
  }

  // The cursor of a field stands at entry k of its stretch, entries a to b - 1; if there is no
  // entry of the field, the stretch is empty and at the end.
  ghost predicate StandsAt(entries: seq<Entry>, f: nat, c: Cursor, a: nat, b: nat, k: nat) {
    && a <= k <= b <= |entries|
    && c.start == |Bytes(entries[..a])|
    && c.start + c.span == |Bytes(entries[..b])|
    && c.start + c.pos == |Bytes(entries[..k])|
    && Values(entries[..a], f) == [] && Values(entries[b..], f) == []
    && (a < b ==> entries[b - 1].id == f)
  }

  // Where the three cursors stand: the first entry of each stretch, the end of it, and the entry
  // that is next.
  datatype Places = Places(first: seq<nat>, beyond: seq<nat>, next: seq<nat>)

  ghost predicate Stands(entries: seq<Entry>, cursors: seq<Cursor>, p: Places, f: Field)
    requires |cursors| == |p.first| == |p.beyond| == |p.next| == 3
  {
    StandsAt(entries, f, cursors[f - 1], p.first[f - 1], p.beyond[f - 1], p.next[f - 1])
  }

  ghost predicate AllStand(entries: seq<Entry>, cursors: seq<Cursor>, p: Places) {
    && |cursors| == |p.first| == |p.beyond| == |p.next| == 3
    && Stands(entries, cursors, p, ADDR)
    && Stands(entries, cursors, p, KEY)
    && Stands(entries, cursors, p, PASSWORD)
  }

  // Nothing has been fetched yet.
  ghost predicate Unfetched(entries: seq<Entry>, p: Places) {
    && Pending(entries, p, ADDR) == Values(entries, ADDR)
    && Pending(entries, p, KEY) == Values(entries, KEY)
    && Pending(entries, p, PASSWORD) == Values(entries, PASSWORD)
  }

  // The values of a field that have not been fetched yet.
  ghost function Pending(entries: seq<Entry>, p: Places, f: Field): seq<seq<byte>> {
    if |p.next| == |p.beyond| == 3 && p.next[f - 1] <= p.beyond[f - 1] <= |entries| then
      Values(entries[p.next[f - 1]..p.beyond[f - 1]], f)
    else []
  }

  // Before anything is fetched, that is all values of the field.
  lemma PendingAtFirst(entries: seq<Entry>, f: nat, c: Cursor, a: nat, b: nat)
    requires StandsAt(entries, f, c, a, b, a)
    ensures Values(entries[a..b], f) == Values(entries, f)
  {
    hide Bytes, Values;
    ValuesCat(entries[..a], entries[a..], f);
    ValuesCat(entries[a..b], entries[b..], f);
    assert entries[a..] == entries[a..b] + entries[b..];
    assert entries == entries[..a] + entries[a..];
  }

  // --- the loop of Init ---

  function CursorsOf(entries: seq<Entry>, len: nat): seq<Cursor> {
    [CursorOf(entries, ADDR, len), CursorOf(entries, KEY, len), CursorOf(entries, PASSWORD, len)]
  }

  function CountsOf(entries: seq<Entry>): seq<nat> {
    [|Values(entries, ADDR)|, |Values(entries, KEY)|, |Values(entries, PASSWORD)|]
  }

  // The entries seen so far fill the buffer up to `pos`.
  ghost predicate Scanned(s: seq<byte>, seen: seq<Entry>, pos: nat) {
    && pos <= |s| && pos == |Bytes(seen)| && AllKnown(seen)
    && Parse(s) == match Parse(s[pos..]) { case None => None case Some(rest) => Some(seen + rest) }
  }

  lemma ScanBegins(s: seq<byte>)
    ensures Scanned(s, [], 0)
    ensures CursorsOf([], |s|) == [Cursor(|s|, 0, 0), Cursor(|s|, 0, 0), Cursor(|s|, 0, 0)] && CountsOf([]) == [0, 0, 0]
  {
    assert s[0..] == s;
    if Parse(s).Some? { assert [] + Parse(s).value == Parse(s).value; }
  }

  lemma ScanFails(s: seq<byte>, seen: seq<Entry>, pos: nat)
    requires Scanned(s, seen, pos) && pos < |s| && Front(s[pos..]).None?
    ensures !Accepted(s)
  {
  }

  lemma ParseFront(s: seq<byte>)
    requires s != [] && Front(s).Some?
    ensures var e := Front(s).value;
      && Size(e) <= |s|
      && Parse(s) == match Parse(s[Size(e)..]) { case None => None case Some(rest) => Some([e] + rest) }
  {
    FrontFits(s);
  }

  lemma ScanUnknown(s: seq<byte>, seen: seq<Entry>, pos: nat)
    requires Scanned(s, seen, pos) && pos < |s| && Front(s[pos..]).Some? && !Known(Front(s[pos..]).value)
    ensures !Accepted(s)
  {
    ParseFront(s[pos..]);
    hide Parse, Front, Known, CountsOk;
    if Parse(s).Some? {
      assert Parse(s).value[|seen|] == Front(s[pos..]).value;
    }
  }

  lemma ScanGoesOn(s: seq<byte>, seen: seq<Entry>, pos: nat)
    requires Scanned(s, seen, pos) && pos < |s| && Front(s[pos..]).Some? && Known(Front(s[pos..]).value)
    ensures var e := Front(s[pos..]).value;
      var next := pos + Size(e);
      && Scanned(s, seen + [e], next)
      && (var c := CursorOf(seen, e.id, |s|);
          var start := if c.start == |s| then pos else c.start;
          && start <= next
          && CursorsOf(seen + [e], |s|) == CursorsOf(seen, |s|)[e.id - 1 := c.(start := start, span := next - start)])
      && CountsOf(seen + [e]) == CountsOf(seen)[e.id - 1 := |Values(seen, e.id)| + 1]
  {
    hide Parse, Front, CursorOf, CursorsOf, CountsOf, Values, Bytes, Size, Known;
    var e := Front(s[pos..]).value;
    ScanNext(s, seen, pos);
    KnownId(e);
    CountsGrow(seen, e);
    CursorsGrow(seen, e, |s|, pos, pos + Size(e));
  }

  lemma KnownId(e: Entry)
    requires Known(e)
    ensures 1 <= e.id <= 3
  {
  }

  lemma CountsGrow(seen: seq<Entry>, e: Entry)
    requires 1 <= e.id <= 3
    ensures CountsOf(seen + [e]) == CountsOf(seen)[e.id - 1 := |Values(seen, e.id)| + 1]
  {
    hide Values;
    ValuesSnoc(seen, e, ADDR);
    ValuesSnoc(seen, e, KEY);
    ValuesSnoc(seen, e, PASSWORD);
  }

  lemma CursorsGrow(seen: seq<Entry>, e: Entry, len: nat, pos: nat, next: nat)
    requires 1 <= e.id <= 3 && |Bytes(seen)| == pos && |Bytes(seen + [e])| == next && pos <= next <= len
    ensures var c := CursorOf(seen, e.id, len);
      var start := if c.start == len then pos else c.start;
      && start <= next
      && CursorsOf(seen + [e], len) == CursorsOf(seen, len)[e.id - 1 := c.(start := start, span := next - start)]
  {
    hide CursorOf, Bytes;
    CursorSnoc(seen, e, ADDR, len);
    CursorSnoc(seen, e, KEY, len);
    CursorSnoc(seen, e, PASSWORD, len);
    StartsBefore(seen, e.id, len);
  }

  lemma StartsBefore(entries: seq<Entry>, f: nat, len: nat)
    requires |Bytes(entries)| <= len
    ensures CursorOf(entries, f, len).start <= |Bytes(entries)| || CursorOf(entries, f, len).start == len
  {
    var a, b := StretchExists(entries, f, len);
    if a < b { StretchInside(entries, f, len, CursorOf(entries, f, len), a, b); }
  }

  lemma ScanNext(s: seq<byte>, seen: seq<Entry>, pos: nat)
    requires Scanned(s, seen, pos) && pos < |s| && Front(s[pos..]).Some? && Known(Front(s[pos..]).value)
    ensures var e := Front(s[pos..]).value;
      && Scanned(s, seen + [e], pos + Size(e)) && |Bytes(seen + [e])| == pos + Size(e) <= |s|
      && |Bytes(seen)| == pos
  {
    hide Parse, Front, Bytes, KnownField, Size, Serialize;
    var e := Front(s[pos..]).value;
    ParseFront(s[pos..]);
    BytesCat(seen, [e]);
    OneEntry(e);
    assert s[pos..][Size(e)..] == s[pos + Size(e)..];
    RegroupEntries(seen, e);
  }

  lemma RegroupEntries(a: seq<Entry>, e: Entry)
    ensures forall rest: seq<Entry> :: a + ([e] + rest) == a + [e] + rest
  {
  }

  lemma ScanEnds(s: seq<byte>, seen: seq<Entry>)
    requires Scanned(s, seen, |s|)
    ensures Parse(s) == Some(seen) && AllKnown(seen) && (Accepted(s) <==> CountsOk(seen))
    ensures AllStand(seen, CursorsOf(seen, |s|), PlacesOf(seen, |s|))
    ensures Unfetched(seen, PlacesOf(seen, |s|))
  {
    hide Parse, Known, Bytes, Values, CursorOf, CursorsOf, PlacesOf, Pending, AllStand, Unfetched, CountsOk;
    ParseNothing(s[|s|..]);
    assert seen + [] == seen;
    AllAtFirst(seen, |s|);
  }

  lemma ParseNothing(s: seq<byte>)
    requires |s| == 0
    ensures Parse(s) == Some([])
  {
  }

  lemma AllAtFirst(seen: seq<Entry>, len: nat)
    requires |Bytes(seen)| == len
    ensures AllStand(seen, CursorsOf(seen, len), PlacesOf(seen, len))
    ensures Unfetched(seen, PlacesOf(seen, len))
  {
    hide Bytes, Values, CursorOf, StandsAt, StretchOf;
    StandAtFirst(seen, ADDR, len);
    StandAtFirst(seen, KEY, len);
    StandAtFirst(seen, PASSWORD, len);
  }

  lemma StretchThere(entries: seq<Entry>, f: nat, len: nat)
    requires |Bytes(entries)| <= len
    ensures exists a: nat, b: nat :: Stretch(entries, f, len, CursorOf(entries, f, len), a, b)
  {
    var a, b := StretchExists(entries, f, len);
  }

  // The stretch of a field.
  ghost function StretchOf(entries: seq<Entry>, f: nat, len: nat): (r: (nat, nat))
    requires |Bytes(entries)| == len
    ensures r.0 < r.1 ==> Stretch(entries, f, len, CursorOf(entries, f, len), r.0, r.1)
    ensures r.0 >= r.1 ==>
      && r == (|entries|, |entries|) && Values(entries, f) == []
      && CursorOf(entries, f, len).start == len && CursorOf(entries, f, len).span == 0
  {
    StretchThere(entries, f, len);
    var a: nat, b: nat :| Stretch(entries, f, len, CursorOf(entries, f, len), a, b);
    if a < b then (a, b) else (|entries|, |entries|)
  }

  ghost function PlacesOf(entries: seq<Entry>, len: nat): Places
    requires |Bytes(entries)| == len
  {
    var x, y, z := StretchOf(entries, ADDR, len), StretchOf(entries, KEY, len), StretchOf(entries, PASSWORD, len);
    Places([x.0, y.0, z.0], [x.1, y.1, z.1], [x.0, y.0, z.0])
  }

  lemma StandAtFirst(entries: seq<Entry>, f: nat, len: nat)
    requires |Bytes(entries)| == len
    ensures var r := StretchOf(entries, f, len);
      && r.0 <= r.1 <= |entries|
      && StandsAt(entries, f, CursorOf(entries, f, len), r.0, r.1, r.0)
      && Values(entries[r.0..r.1], f) == Values(entries, f)
  {
    hide Bytes, CursorOf, StretchOf;
    var x, y := StretchExists(entries, f, len);
    var r := StretchOf(entries, f, len);
    assert entries[..|entries|] == entries && entries[|entries|..] == [];
    PendingAtFirst(entries, f, CursorOf(entries, f, len), r.0, r.1);
  }

  class Parser {
    const buf: seq<byte>
    var cursors: seq<Cursor>        // of addr, key and password
    ghost var entries: seq<Entry>
    ghost var places: Places

    ghost predicate Valid()
      reads this
    {
      && Parse(buf) == Some(entries) && AllKnown(entries) && CountsOk(entries)
      && AllStand(entries, cursors, places)
    }

    constructor (buf: seq<byte>)
      ensures this.buf == buf
    {
      this.buf := buf;
      cursors, entries, places := [], [], Places([], [], []);
    }

    // The first part of the loop of Init: read one entry, checking that it is all there.
    method CheckEntry(at: nat) returns (ok: bool, id: nat, kind: nat, size: nat)
      requires at < |buf|
      ensures ok == Front(buf[at..]).Some?
      ensures ok ==> var e := Front(buf[at..]).value;
        id == e.id && kind == e.kind && size == Size(e) <= |buf| - at
    {
      ghost var s := buf[at..];
      var left := |buf| - at;
      ok, id, kind, size := false, 0, 0, 0;
      if left < HEADER { return; }
      id, kind := FromLe(buf[at..at + 2]), FromLe(buf[at + 2..at + 4]);
      assert s[..2] == buf[at..at + 2] && s[2..4] == buf[at + 2..at + 4];
      left := left - HEADER;
      size := HEADER;
      if kind == TYPE_UINT8 {
        if left < 1 { return; }
        size := size + 1;
      } else if kind == TYPE_UINT16 {
        if left < 2 { return; }
        size := size + 2;
      } else if kind == TYPE_UINT32 {
        if left < 4 { return; }
        size := size + 4;
      } else if kind == TYPE_UINT64 {
        if left < 8 { return; }
        size := size + 8;
      } else if kind == TYPE_DATA || kind == TYPE_CONSTDATA {
        if left < DATA_HEADER { return; }
        var len := FromLe(buf[at + 4..at + 8]);
        assert s[4..8] == buf[at + 4..at + 8];
        left := left - DATA_HEADER;
        size := size + DATA_HEADER;
        if left < len { return; }
        size := size + len;
      } else {
        return;
      }
      ok := true;
    }

    // msg_youconnectParser_Init
    method Init() returns (ok: bool)
      modifies this
      ensures ok <==> Accepted(buf)
      ensures ok ==> Valid() && Unfetched(entries, places)
    {
      hide Accepted, Parse, CursorsOf, Known, Front, Bytes, Values, Unfetched, AllStand, Stands, PlacesOf;
      var counts;
      ghost var seen;
      ok, counts, seen := Scan();
      if !ok { return; }
      ScanEnds(buf, seen);
      ok := counts[0] >= 1 && counts[1] <= 1 && counts[2] <= 1;
      if ok {
        entries := seen;
        places := PlacesOf(seen, |buf|);
      }
    }

    // The loop of Init.
    method Scan() returns (ok: bool, counts: seq<nat>, ghost seen: seq<Entry>)
      modifies this`cursors
      ensures !ok ==> !Accepted(buf)
      ensures ok ==> Scanned(buf, seen, |buf|) && cursors == CursorsOf(seen, |buf|) && counts == CountsOf(seen)
    {
      hide Accepted, Parse, CursorsOf, CountsOf, KnownField, Front, Bytes, Values, Scanned, CursorOf;
      var none := Cursor(|buf|, 0, 0);
      cursors, counts, seen := [none, none, none], [0, 0, 0], [];
      var pos, left := 0, |buf|;
      ScanBegins(buf);
      while left > 0
        invariant 0 <= left && pos + left == |buf| && Scanned(buf, seen, pos)
        invariant cursors == CursorsOf(seen, |buf|) && counts == CountsOf(seen)
        decreases left
      {
        var entryPos := pos;
        var good, id, kind, size := CheckEntry(pos);
        if !good {
          ScanFails(buf, seen, pos);
          return false, counts, seen;
        }
        pos := pos + size;
        left := left - size;
        if !KnownField(id, kind) {
          ScanUnknown(buf, seen, entryPos);
          return false, counts, seen;
        }
        ScanGoesOn(buf, seen, entryPos);
        ScanCursor(seen, id, kind, |buf|);
        var c := cursors[id - 1];
        var start := if c.start == |buf| then entryPos else c.start;
        cursors := cursors[id - 1 := c.(start := start, span := pos - start)];
        counts := counts[id - 1 := counts[id - 1] + 1];
        seen := seen + [Front(buf[entryPos..]).value];
      }
      ok := true;
    }

    lemma ScanCursor(seen: seq<Entry>, id: nat, kind: nat, len: nat)
      requires KnownField(id, kind)
      ensures 1 <= id <= 3 && |CursorsOf(seen, len)| == |CountsOf(seen)| == 3
      ensures CursorsOf(seen, len)[id - 1] == CursorOf(seen, id, len) && CountsOf(seen)[id - 1] == |Values(seen, id)|
    {
    }

    // What has not been fetched of a field.
    ghost function Left(f: Field): seq<seq<byte>>
      reads this
    {
      Pending(entries, places, f)
    }

    lemma StandFacts(entries: seq<Entry>, cursors: seq<Cursor>, p: Places, f: Field)
      requires AllStand(entries, cursors, p)
      ensures |cursors| == |p.first| == |p.beyond| == |p.next| == 3
      ensures Stands(entries, cursors, p, f)
      ensures p.first[f - 1] <= p.next[f - 1] <= p.beyond[f - 1] <= |entries|
    {
      assert f == ADDR || f == KEY || f == PASSWORD;
    }

    // One turn of the loop of a getter: step over an entry, of which the parser has checked
    // before that it is all there.
    method StepEntry(at: nat, left: nat) returns (id: nat, kind: nat, body: seq<byte>, size: nat)
      requires at < |buf| && Front(buf[at..]).Some? && Size(Front(buf[at..]).value) <= left <= |buf| - at
      ensures Entry(id, kind, body) == Front(buf[at..]).value && size == Size(Front(buf[at..]).value)
    {
      ghost var s := buf[at..];
      var rest := left;
      assert rest >= HEADER;
      id, kind := FromLe(buf[at..at + 2]), FromLe(buf[at + 2..at + 4]);
      assert s[..2] == buf[at..at + 2] && s[2..4] == buf[at + 2..at + 4];
      hide FromLe;
      rest := rest - HEADER;
      size, body := HEADER, [];
      if kind == TYPE_UINT8 {
        assert rest >= 1;
        body := buf[at + size..at + size + 1];
      } else if kind == TYPE_UINT16 {
        assert rest >= 2;
        body := buf[at + size..at + size + 2];
      } else if kind == TYPE_UINT32 {
        assert rest >= 4;
        body := buf[at + size..at + size + 4];
      } else if kind == TYPE_UINT64 {
        assert rest >= 8;
        body := buf[at + size..at + size + 8];
      } else if kind == TYPE_DATA || kind == TYPE_CONSTDATA {
        assert rest >= DATA_HEADER;
        var len := FromLe(buf[at + 4..at + 8]);
        assert s[4..8] == buf[at + 4..at + 8];
        rest := rest - DATA_HEADER;
        size := size + DATA_HEADER;
        assert rest >= len;
        body := buf[at + size..at + size + len];
      } else {
        assert false;
      }
      assert s[size..size + |body|] == body;
      size := size + |body|;
    }

    // The loop of a getter, from entry k0 on to the end of the stretch before entry b.
    method Walk(f: Field, start: nat, pos0: nat, span: nat, ghost k0: nat, ghost b: nat)
      returns (v: Option<seq<byte>>, pos: nat, ghost k: nat)
      requires Parse(buf) == Some(entries) && AllKnown(entries) && k0 <= b <= |entries| && pos0 <= span
      requires start + pos0 == |Bytes(entries[..k0])| && start + span == |Bytes(entries[..b])|
      ensures k0 <= k <= b && start + pos == |Bytes(entries[..k])| && pos <= span
      ensures var pending := Values(entries[k0..b], f);
        if pending == [] then v == None && k == b && pos == span && Values(entries[k..b], f) == []
        else v == Some(pending[0]) && Values(entries[k..b], f) == pending[1..]
    {
      hide Parse, Front, Bytes, Values, KnownField, Size;
      v, pos, k := None, pos0, k0;
      var left := span - pos0;
      NothingPassed(entries, k0, f);
      while left > 0
        invariant k0 <= k <= b && 0 <= left && pos + left == span
        invariant start + pos == |Bytes(entries[..k])| && Values(entries[k0..k], f) == []
        decreases left
      {
        TurnFacts(buf, entries, k, b);
        var id, kind, body, size := StepEntry(start + pos, left);
        PassEntry(entries, k0, k, b, f);
        KnownKind(entries, k, f);
        pos := pos + size;
        left := left - size;
        k := k + 1;
        if (f == PASSWORD && kind == TYPE_UINT64 && id == 3) || (f != PASSWORD && kind == TYPE_DATA && id == f) {
          v := Some(body);
          return;
        }
      }
      WalkedOff(entries, k0, k, b, f);
      NothingPassed(entries, b, f);
    }

    lemma NothingPassed(entries: seq<Entry>, k: nat, f: nat)
      requires k <= |entries|
      ensures Values(entries[k..k], f) == []
    {
    }

    // There is an entry as long as there are bytes, and it lies before the end of the stretch.
    lemma TurnFacts(s: seq<byte>, entries: seq<Entry>, k: nat, b: nat)
      requires Parse(s) == Some(entries) && k <= b <= |entries|
      requires |Bytes(entries[..k])| < |Bytes(entries[..b])|
      ensures k < b
      ensures var at := |Bytes(entries[..k])|;
        && at < |s| && Front(s[at..]) == Some(entries[k])
        && at + Size(entries[k]) == |Bytes(entries[..k + 1])| <= |Bytes(entries[..b])| <= |s|
    {
      hide Parse, Front;
      EntryHere(s, entries, k);
      BytesGrow(entries, k + 1, b);
      BufferFrom(s, entries, b);
    }

    // What passing entry k does to the values still to come.
    lemma PassEntry(entries: seq<Entry>, k0: nat, k: nat, b: nat, f: nat)
      requires k0 <= k < b <= |entries| && Values(entries[k0..k], f) == []
      ensures var e := entries[k];
        && Values(entries[k0..b], f) == (if e.id == f then [e.body] else []) + Values(entries[k + 1..b], f)
        && Values(entries[k0..k + 1], f) == if e.id == f then [e.body] else []
    {
      hide Values;
      var e := entries[k];
      assert entries[k0..b] == entries[k0..k] + ([e] + entries[k + 1..b]);
      assert entries[k0..k + 1] == entries[k0..k] + [e];
      ValuesCat(entries[k0..k], [e] + entries[k + 1..b], f);
      ValuesCat([e], entries[k + 1..b], f);
      ValuesSnoc(entries[k0..k], e, f);
      ValuesOne(e, f);
    }

    lemma ValuesOne(e: Entry, f: nat)
      ensures Values([e], f) == if e.id == f then [e.body] else []
    {
      assert Values([e], f) == (if e.id == f then [e.body] else []) + Values([], f);
    }

    // An entry of the field has the type of the field.
    lemma KnownKind(entries: seq<Entry>, k: nat, f: Field)
      requires AllKnown(entries) && k < |entries|
      ensures entries[k].id == f ==> entries[k].kind == if f == PASSWORD then TYPE_UINT64 else TYPE_DATA
    {
      assert Known(entries[k]);
    }

    lemma WalkedOff(entries: seq<Entry>, k0: nat, k: nat, b: nat, f: nat)
      requires k0 <= k <= b <= |entries| && |Bytes(entries[..k])| == |Bytes(entries[..b])|
      requires Values(entries[k0..k], f) == []
      ensures k == b && Values(entries[k0..b], f) == []
    {
      BytesGrow(entries, k, b);
    }

    // msg_youconnectParser_Getaddr, Getkey and, for the bytes of the number, Getpassword: the
    // values of a field come one by one, in order; when there is none left, the cursor is at the
    // end of its stretch.  The other fields are not touched.
    method Get(f: Field) returns (v: Option<seq<byte>>)
      requires Valid()
      modifies this`cursors, this`places
      ensures Valid() && entries == old(entries)
      ensures if old(Left(f)) == [] then v == None && Left(f) == [] && cursors[f - 1].pos == cursors[f - 1].span
              else v == Some(old(Left(f))[0]) && Left(f) == old(Left(f))[1..]
      ensures f != ADDR ==> Left(ADDR) == old(Left(ADDR))
      ensures f != KEY ==> Left(KEY) == old(Left(KEY))
      ensures f != PASSWORD ==> Left(PASSWORD) == old(Left(PASSWORD))
    {
      hide Parse, CountsOk, Bytes, Values, AllStand, Pending;
      StandFacts(entries, cursors, places, f);
      ghost var b, k := places.beyond[f - 1], places.next[f - 1];
      var c := cursors[f - 1];
      WalkFrom(entries, f, c, places.first[f - 1], b, k);
      var pos;
      v, pos, k := Walk(f, c.start, c.pos, c.span, k, b);
      CursorMoves(entries, cursors, places, f, pos, k);
      cursors := cursors[f - 1 := c.(pos := pos)];
      places := places.(next := places.next[f - 1 := k]);
    }

    lemma WalkFrom(entries: seq<Entry>, f: nat, c: Cursor, a: nat, b: nat, k: nat)
      requires StandsAt(entries, f, c, a, b, k)
      ensures k <= b <= |entries| && c.pos <= c.span
      ensures c.start + c.pos == |Bytes(entries[..k])| && c.start + c.span == |Bytes(entries[..b])|
    {
      BytesGrow(entries, k, b);
    }

    // A field's cursor moves on to entry k.
    lemma CursorMoves(entries: seq<Entry>, cursors: seq<Cursor>, p: Places, f: Field, pos: nat, k: nat)
      requires AllStand(entries, cursors, p) && p.first[f - 1] <= k <= p.beyond[f - 1] <= |entries|
      requires cursors[f - 1].start + pos == |Bytes(entries[..k])|
      ensures var cursors2, p2 := cursors[f - 1 := cursors[f - 1].(pos := pos)], p.(next := p.next[f - 1 := k]);
        && AllStand(entries, cursors2, p2)
        && p.next[f - 1] <= p.beyond[f - 1]
        && Pending(entries, p, f) == Values(entries[p.next[f - 1]..p.beyond[f - 1]], f)
        && Pending(entries, p2, f) == Values(entries[k..p.beyond[f - 1]], f)
        && (f != ADDR ==> Pending(entries, p2, ADDR) == Pending(entries, p, ADDR))
        && (f != KEY ==> Pending(entries, p2, KEY) == Pending(entries, p, KEY))
        && (f != PASSWORD ==> Pending(entries, p2, PASSWORD) == Pending(entries, p, PASSWORD))
    {
      hide Bytes, Values, StandsAt;
      StandFacts(entries, cursors, p, ADDR);
      StandFacts(entries, cursors, p, KEY);
      StandFacts(entries, cursors, p, PASSWORD);
      StandsThere(entries, f, cursors[f - 1], p.first[f - 1], p.beyond[f - 1], p.next[f - 1], pos, k);
    }

    lemma StandsThere(entries: seq<Entry>, f: nat, c: Cursor, a: nat, b: nat, k: nat, pos: nat, next: nat)
      requires StandsAt(entries, f, c, a, b, k) && a <= next <= b && c.start + pos == |Bytes(entries[..next])|
      ensures StandsAt(entries, f, c.(pos := pos), a, b, next)
    {
    }

    // msg_youconnectParser_Resetaddr and the like
    method Reset(f: Field)
      requires Valid()
      modifies this`cursors, this`places
      ensures Valid() && entries == old(entries) && Left(f) == Values(entries, f)
      ensures f != ADDR ==> Left(ADDR) == old(Left(ADDR))
      ensures f != KEY ==> Left(KEY) == old(Left(KEY))
      ensures f != PASSWORD ==> Left(PASSWORD) == old(Left(PASSWORD))
    {
      hide Parse, CountsOk, Bytes, Values, AllStand, Pending;
      StandFacts(entries, cursors, places, f);
      ghost var a, b := places.first[f - 1], places.beyond[f - 1];
      var c := cursors[f - 1];
      PendingAtFirst(entries, f, c.(pos := 0), a, b);
      CursorMoves(entries, cursors, places, f, 0, a);
      cursors := cursors[f - 1 := c.(pos := 0)];
      places := places.(next := places.next[f - 1 := a]);
    }

    // msg_youconnectParser_Forwardaddr and the like
    method Forward(f: Field)
      requires Valid()
      modifies this`cursors, this`places
      ensures Valid() && entries == old(entries) && Left(f) == []
      ensures f != ADDR ==> Left(ADDR) == old(Left(ADDR))
      ensures f != KEY ==> Left(KEY) == old(Left(KEY))
      ensures f != PASSWORD ==> Left(PASSWORD) == old(Left(PASSWORD))
    {
      hide Parse, CountsOk, Bytes, Values, AllStand, Pending;
      StandFacts(entries, cursors, places, f);
      ghost var b := places.beyond[f - 1];
      var c := cursors[f - 1];
      NothingPassed(entries, b, f);
      CursorMoves(entries, cursors, places, f, c.span, b);
      cursors := cursors[f - 1 := c.(pos := c.span)];
      places := places.(next := places.next[f - 1 := b]);
    }

    // msg_youconnectParser_GotEverything: whether no value is left of any field.
    method GotEverything() returns (r: bool)
      requires Valid()
      ensures r <==> Left(ADDR) == [] && Left(KEY) == [] && Left(PASSWORD) == []
    {
      hide Valid, Left;
      AtEnd(ADDR);
      AtEnd(KEY);
      AtEnd(PASSWORD);
      r := cursors[0].pos == cursors[0].span && cursors[1].pos == cursors[1].span && cursors[2].pos == cursors[2].span;
    }

    // The stretch ends with an entry of the field.
    lemma AtEnd(f: Field)
      requires Valid()
      ensures |cursors| == 3 && (cursors[f - 1].pos == cursors[f - 1].span <==> Left(f) == [])
    {
      hide Parse, CountsOk, AllStand, Bytes, Values, StandsAt;
      StandFacts(entries, cursors, places, f);
      AtEndOf(entries, f, cursors[f - 1], places.first[f - 1], places.beyond[f - 1], places.next[f - 1]);
    }

    lemma AtEndOf(entries: seq<Entry>, f: nat, c: Cursor, a: nat, b: nat, k: nat)
      requires StandsAt(entries, f, c, a, b, k)
      ensures k <= b <= |entries| && (c.pos == c.span <==> Values(entries[k..b], f) == [])
    {
      BytesGrow(entries, k, b);
      if k < b {
        assert entries[k..b] == entries[k..b - 1] + [entries[b - 1]];
        ValuesSnoc(entries[k..b - 1], entries[b - 1], f);
      } else {
        assert entries[k..b] == [];
      }
    }
  }

  // ---------------------------------------------------------------------------------------
  // The writer
  // ---------------------------------------------------------------------------------------

  lemma EntryAdded(entries: seq<Entry>, e: Entry)
    requires AllWellFormed(entries) && AllKnown(entries) && WellFormed(e) && Known(e)
    ensures Bytes(entries + [e]) == Bytes(entries) + Serialize(e)
    ensures AllWellFormed(entries + [e]) && AllKnown(entries + [e])
    ensures forall f: nat :: |Values(entries + [e], f)| == |Values(entries, f)| + if e.id == f then 1 else 0
  {
    BytesCat(entries, [e]);
    OneEntry(e);
    hide Bytes, WellFormed, Known, Serialize;
    forall f: nat ensures |Values(entries + [e], f)| == |Values(entries, f)| + if e.id == f then 1 else 0 {
      ValuesSnoc(entries, e, f);
    }
  }

  // Whatever entries of the message's fields are written, if Finish would let them pass, the
  // parser accepts the bytes and reads the same entries, and a number comes back as it was.
  lemma WrittenIsRead(entries: seq<Entry>)
    requires AllWellFormed(entries) && AllKnown(entries) && CountsOk(entries)
    ensures Accepted(Bytes(entries)) && Parse(Bytes(entries)) == Some(entries)
    ensures forall v: nat :: v < Power(8) ==> FromLe(Le(v, 8)) == v
  {
    ParseOfBytes(entries);
    forall v: nat | v < Power(8) ensures FromLe(Le(v, 8)) == v { LeRoundTrip(v, 8); }
  }

  class Writer {
    const out: array<byte>
    var used: nat
    var addrCount: nat
    var keyCount: nat
    var passwordCount: nat
    ghost var entries: seq<Entry>

    // What has been written are entries of the message's fields, and the counts are right.
    ghost predicate Valid()
      reads this, out
    {
      && used <= out.Length && out[..used] == Bytes(entries)
      && AllWellFormed(entries) && AllKnown(entries)
      && addrCount == |Values(entries, ADDR)|
      && keyCount == |Values(entries, KEY)|
      && passwordCount == |Values(entries, PASSWORD)|
    }

    // msg_youconnectWriter_Init
    constructor (out: array<byte>)
      ensures Valid() && this.out == out && entries == []
    {
      this.out := out;
      used, addrCount, keyCount, passwordCount, entries := 0, 0, 0, 0, [];
    }

    // memcpy to the end of what has been written
    method Append(s: seq<byte>)
      requires used + |s| <= out.Length
      modifies this`used, out
      ensures used == old(used) + |s| && out[..used] == old(out[..used]) + s
    {
      ghost var before := out[..used];
      forall i | 0 <= i < |s| {
        out[used + i] := s[i];
      }
      used := used + |s|;
      assert out[..used] == before + s;
    }

    // The header and the value of an entry.
    method AppendEntry(e: Entry)
      requires WellFormed(e) && used + Size(e) <= out.Length
      modifies this`used, out
      ensures used == old(used) + Size(e) && out[..used] == old(out[..used]) + Serialize(e)
    {
      SerializedSize(e);
      hide Le;
      Append(Le(e.id, 2));
      Append(Le(e.kind, 2));
      if IsData(e.kind) {
        Append(Le(|e.body|, 4));
      }
      Append(e.body);
    }

    // msg_youconnectWriter_Addaddr, with the bytes its caller puts where it is told to
    method AddAddr(body: seq<byte>)
      requires Valid() && |body| < Power(4) && used + Size(Entry(ADDR, TYPE_DATA, body)) <= out.Length
      modifies this, out
      ensures Valid() && entries == old(entries) + [Entry(ADDR, TYPE_DATA, body)]
    {
      ghost var e := Entry(ADDR, TYPE_DATA, body);
      EntryAdded(entries, e);
      AppendEntry(Entry(ADDR, TYPE_DATA, body));
      entries := entries + [e];
      addrCount := addrCount + 1;
    }

    // msg_youconnectWriter_Addkey
    method AddKey(body: seq<byte>)
      requires Valid() && |body| < Power(4) && used + Size(Entry(KEY, TYPE_DATA, body)) <= out.Length
      requires keyCount == 0
      modifies this, out
      ensures Valid() && entries == old(entries) + [Entry(KEY, TYPE_DATA, body)]
    {
      ghost var e := Entry(KEY, TYPE_DATA, body);
      EntryAdded(entries, e);
      AppendEntry(Entry(KEY, TYPE_DATA, body));
      entries := entries + [e];
      keyCount := keyCount + 1;
    }

    // msg_youconnectWriter_Addpassword
    method AddPassword(v: nat)
      requires Valid() && v < Power(8) && used + HEADER + 8 <= out.Length
      requires passwordCount == 0
      modifies this, out
      ensures Valid() && entries == old(entries) + [Entry(PASSWORD, TYPE_UINT64, Le(v, 8))]
    {
      ghost var e := Entry(PASSWORD, TYPE_UINT64, Le(v, 8));
      EntryAdded(entries, e);
      AppendEntry(Entry(PASSWORD, TYPE_UINT64, Le(v, 8)));
      entries := entries + [e];
      passwordCount := passwordCount + 1;
    }

    // msg_youconnectWriter_Finish.  What has been written is accepted by the parser, and read as
    // what was added.
    method Finish() returns (len: nat)
      requires Valid() && addrCount >= 1 && keyCount <= 1 && passwordCount <= 1
      ensures len == used && Accepted(out[..len]) && Parse(out[..len]) == Some(entries)
    {
      len := used;
      ParseOfBytes(entries);
    }
  }
}
