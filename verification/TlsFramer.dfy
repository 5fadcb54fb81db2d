// Following the record framing of a server's answer, chunk by chunk (try_set_tls_timer of
// byedpi/extend.c; section 5.1 of RFC 8446).

module TlsFramer {
  import opened Common
  import opened TlsRecords

  // tls_rec_pos, tls_rec_size and tls_rec
  datatype Place = Place(pos: nat, size: nat, rec: seq<byte>)

  datatype Verdict = Bad | Fine(place: Place)

  const START: Place := Place(0, 0, [0, 0, 0, 0, 0])

  // The size is known, and the header found good, once a byte of the fragment has been seen.
  ghost predicate PlaceOk(p: Place) {
    && |p.rec| == 5
    && if p.pos <= 5 then p.size == 0 else p.pos <= p.size == 5 + SizeAt(p.rec, 3) && GoodHeader(p.rec)
  }

  predicate GoodHeader(rec: seq<byte>)
    requires |rec| >= 5
  {
    0x14 <= rec[0] <= 0x18 && SizeAt(rec, 3) > 0
  }

  // One more byte.
  function Feed(p: Place, b: byte): Verdict
    requires |p.rec| == 5
  {
    if p.pos < 5 then Fine(p.(pos := p.pos + 1, rec := p.rec[p.pos := b]))
    else if p.pos == 5 then
      if GoodHeader(p.rec) then Fine(p.(pos := 6, size := 5 + SizeAt(p.rec, 3))) else Bad
    else if p.pos == p.size then Fine(Place(1, 0, p.rec[0 := b]))
    else Fine(p.(pos := p.pos + 1))
  }

  function FeedAll(p: Place, s: seq<byte>): (v: Verdict)
    requires |p.rec| == 5
    ensures v.Fine? ==> |v.place.rec| == 5
    decreases |s|
  {
    if s == [] then Fine(p)
    else match Feed(p, s[0])
      case Bad => Bad
      case Fine(q) => FeedAll(q, s[1..])
  }

  lemma FeedKeeps(p: Place, b: byte)
    requires PlaceOk(p)
    ensures Feed(p, b).Fine? ==> PlaceOk(Feed(p, b).place)
  {
    if p.pos < 5 && Feed(p, b).place.pos == 5 {} else if p.pos > 5 && p.pos == p.size {}
  }

  lemma {:induction false} FeedAllKeeps(p: Place, s: seq<byte>)
    requires PlaceOk(p)
    ensures FeedAll(p, s).Fine? ==> PlaceOk(FeedAll(p, s).place)
    decreases |s|
  {
    if s != [] && Feed(p, s[0]).Fine? {
      FeedKeeps(p, s[0]);
      FeedAllKeeps(Feed(p, s[0]).place, s[1..]);
    }
  }

  // How a stream is cut into chunks makes no difference.
  lemma {:induction false} ChunksDoNotMatter(p: Place, a: seq<byte>, b: seq<byte>)
    requires |p.rec| == 5
    ensures FeedAll(p, a + b) == if FeedAll(p, a).Bad? then Bad else FeedAll(FeedAll(p, a).place, b)
    decreases |a|
  {
    if a == [] {
      assert a + b == b;
    } else {
      assert (a + b)[0] == a[0] && (a + b)[1..] == a[1..] + b;
      if Feed(p, a[0]).Fine? {
        ChunksDoNotMatter(Feed(p, a[0]).place, a[1..], b);
      }
    }
  }

  function Flat(chunks: seq<seq<byte>>): seq<byte> {
    if chunks == [] then [] else chunks[0] + Flat(chunks[1..])
  }

  // One call for each chunk, as long as none fails.
  function FeedChunks(p: Place, chunks: seq<seq<byte>>): (v: Verdict)
    requires |p.rec| == 5
    decreases |chunks|
  {
    if chunks == [] then Fine(p)
    else match FeedAll(p, chunks[0])
      case Bad => Bad
      case Fine(q) => FeedChunks(q, chunks[1..])
  }

  lemma {:induction false} AnyChunking(p: Place, chunks: seq<seq<byte>>)
    requires |p.rec| == 5
    ensures FeedChunks(p, chunks) == FeedAll(p, Flat(chunks))
    decreases |chunks|
  {
    if chunks != [] {
      ChunksDoNotMatter(p, chunks[0], Flat(chunks[1..]));
      if FeedAll(p, chunks[0]).Fine? { AnyChunking(FeedAll(p, chunks[0]).place, chunks[1..]); }
    }
  }

  // ---------------------------------------------------------------------------------------
  // Records
  // ---------------------------------------------------------------------------------------

  // The last record of a stream of well-formed records, complete or not; None if one of them is
  // malformed.  A header is only looked at once a byte has come after it.
  function LastRecord(s: seq<byte>): (r: Option<seq<byte>>)
    ensures r.Some? ==> |r.value| <= |s| && (s != [] ==> r.value != [])
  {
    if |s| <= 5 then Some(s)
    else if !GoodHeader(s) then None
    else
      var size := 5 + SizeAt(s, 3);
      if |s| <= size then Some(s) else LastRecord(s[size..])
  }

  // The framer has seen `r` of its current record.
  ghost predicate Stands(p: Place, r: seq<byte>) {
    && PlaceOk(p) && p.pos == |r|
    && (forall i :: 0 <= i < |r| && i < 5 ==> p.rec[i] == r[i])
    && (|r| > 5 ==> GoodHeader(r) && |r| <= 5 + SizeAt(r, 3))
  }

  // The stream ends strictly inside a record.
  predicate Inside(r: seq<byte>) {
    r != [] && !(|r| > 5 && |r| == 5 + SizeAt(r, 3))
  }

  lemma FeedStands(p: Place, r: seq<byte>, b: byte)
    requires Stands(p, r)
    ensures Feed(p, b).Bad? <==> |r| == 5 && !GoodHeader(r)
    ensures Feed(p, b).Fine? ==> Stands(Feed(p, b).place, if Inside(r) || r == [] then r + [b] else [b])
  {
    FeedKeeps(p, b);
    if |r| >= 5 { assert SizeAt(p.rec, 3) == SizeAt(r, 3); }
    if Inside(r) && |r| >= 5 { assert SizeAt(r + [b], 3) == SizeAt(r, 3); }
  }

  // Reading on from inside a record.
  lemma {:induction false} ReadOn(p: Place, r: seq<byte>, s: seq<byte>)
    requires Stands(p, r) && (Inside(r) || r == [])
    ensures FeedAll(p, s).Bad? <==> LastRecord(r + s).None?
    ensures FeedAll(p, s).Fine? ==> Stands(FeedAll(p, s).place, LastRecord(r + s).value)
    decreases |s|
  {
    if s == [] {
      assert r + s == r;
    } else {
      FeedStands(p, r, s[0]);
      if |r| == 5 { assert GoodHeader(r + s) == GoodHeader(r); }
      if Feed(p, s[0]).Fine? {
        var q, r1 := Feed(p, s[0]).place, r + [s[0]];
        assert r1 + s[1..] == r + s;
        if Inside(r1) {
          ReadOn(q, r1, s[1..]);
        } else {
          RecordDone(q, r1, s[1..]);
        }
      }
    }
  }

  // Reading on from the end of a record.
  lemma {:induction false} RecordDone(p: Place, r: seq<byte>, s: seq<byte>)
    requires Stands(p, r) && r != [] && !Inside(r)
    ensures FeedAll(p, s).Bad? <==> LastRecord(r + s).None?
    ensures FeedAll(p, s).Fine? ==> Stands(FeedAll(p, s).place, LastRecord(r + s).value)
    decreases |s|
  {
    if s == [] {
      assert r + s == r;
    } else {
      FeedStands(p, r, s[0]);
      var q := Feed(p, s[0]).place;
      ReadOn(q, [s[0]], s[1..]);
      assert [s[0]] + s[1..] == s;
      assert (r + s)[|r|..] == s && SizeAt(r + s, 3) == SizeAt(r, 3) && GoodHeader(r + s);
    }
  }

  // From the start of a connection on, however its bytes arrive: the framer fails exactly when
  // one of the records is malformed, and otherwise has the header and the length of the record
  // that the stream has come to, and how much of it has been read.
  lemma FramerFollowsRecords(chunks: seq<seq<byte>>)
    ensures var s := Flat(chunks);
      var v := FeedChunks(START, chunks);
      && (v.Bad? <==> LastRecord(s).None?)
      && (v.Fine? ==>
            Stands(v.place, LastRecord(s).value) && (v.place.pos != v.place.size <==> Inside(LastRecord(s).value)))
  {
    var s := Flat(chunks);
    AnyChunking(START, chunks);
    ReadOn(START, [], s);
    assert [] + s == s;
    if LastRecord(s).Some? && |LastRecord(s).value| >= 5 {
      var v := FeedChunks(START, chunks);
      assert SizeAt(v.place.rec, 3) == SizeAt(LastRecord(s).value, 3);
    }
  }

  // ---------------------------------------------------------------------------------------
  // The code
  // ---------------------------------------------------------------------------------------

  // Some bytes inside a record move the position and nothing else.
  lemma {:induction false} SkipInside(p: Place, s: seq<byte>)
    requires PlaceOk(p) && p.pos > 5 && p.pos + |s| <= p.size
    ensures FeedAll(p, s) == Fine(p.(pos := p.pos + |s|))
    decreases |s|
  {
    if s != [] { SkipInside(p.(pos := p.pos + 1), s[1..]); }
  }

  // Reading k bytes of the fragment at once.
  lemma SkipAhead(p: Place, s: seq<byte>, k: nat)
    requires PlaceOk(p) && p.pos >= 5 && GoodHeader(p.rec) && 1 <= k <= |s| && p.pos + k <= 5 + SizeAt(p.rec, 3)
    ensures FeedAll(p, s) == FeedAll(Place(p.pos + k, 5 + SizeAt(p.rec, 3), p.rec), s[k..])
  {
    var q := Place(p.pos + 1, 5 + SizeAt(p.rec, 3), p.rec);
    assert Feed(p, s[0]) == Fine(q);
    assert s[1..] == s[1..k] + s[k..];
    SkipInside(q, s[1..k]);
    ChunksDoNotMatter(q, s[1..k], s[k..]);
  }

  lemma StoreOne(p: Place, s: seq<byte>)
    requires |p.rec| == 5 && p.pos < 5 && s != []
    ensures FeedAll(p, s) == FeedAll(p.(pos := p.pos + 1, rec := p.rec[p.pos := s[0]]), s[1..])
  {
  }

  lemma StartOver(p: Place, s: seq<byte>)
    requires PlaceOk(p) && p.pos > 5 && p.pos == p.size && s != []
    ensures FeedAll(p, s) == FeedAll(Place(0, 0, p.rec), s)
  {
  }

  lemma BadHeader(p: Place, s: seq<byte>)
    requires PlaceOk(p) && p.pos == 5 && !GoodHeader(p.rec) && s != []
    ensures FeedAll(p, s) == Bad
  {
  }

  class Connection {
    var tlsRecPos: nat
    var tlsRecSize: nat
    const tlsRec: array<byte>
    var armed: bool            // its timer is set

    ghost function Now(): Place
      reads this, tlsRec
    {
      Place(tlsRecPos, tlsRecSize, tlsRec[..])
    }

    constructor ()
      ensures PlaceOk(Now()) && tlsRecPos == 0 && !armed && fresh(tlsRec)
    {
      tlsRecPos, tlsRecSize, armed := 0, 0, false;
      tlsRec := new byte[5](_ => 0);
    }

    // try_set_tls_timer
    method TrySetTlsTimer(buff: seq<byte>, recvCount: nat, toBytesLim: nat, ptimeout: nat) returns (ok: bool)
      requires PlaceOk(Now()) && buff != []
      modifies this`tlsRecPos, this`tlsRecSize, this`armed, tlsRec
      ensures toBytesLim != 0 && recvCount > toBytesLim ==> !ok && !armed && Now() == old(Now())
      ensures !(toBytesLim != 0 && recvCount > toBytesLim) ==>
        && ok == FeedAll(old(Now()), buff).Fine?
        && (ok ==> Now() == FeedAll(old(Now()), buff).place && PlaceOk(Now()))
        && armed == if ok && ptimeout != 0 then tlsRecPos != tlsRecSize else old(armed)
    {
      if toBytesLim != 0 && recvCount > toBytesLim {
        armed := false;
        return false;
      }
      ok := Follow(buff);
      if !ok { return; }
      if ptimeout != 0 {
        armed := false;
        if tlsRecPos != tlsRecSize { armed := true; }
      }
    }

    // The loop of try_set_tls_timer.
    method Follow(buff: seq<byte>) returns (ok: bool)
      requires PlaceOk(Now()) && buff != []
      modifies this`tlsRecPos, this`tlsRecSize, tlsRec
      ensures ok == FeedAll(old(Now()), buff).Fine?
      ensures ok ==> Now() == FeedAll(old(Now()), buff).place && PlaceOk(Now())
    {
      hide FeedAll, GoodHeader, SizeAt;
      var pos, n := 0, |buff|;
      assert buff[0..] == buff;
      while pos < n
        invariant 0 <= pos <= n && PlaceOk(Now())
        invariant FeedAll(Now(), buff[pos..]) == FeedAll(old(Now()), buff)
        decreases n - pos, tlsRecPos
      {
        if tlsRecPos < 5 {
          StoreByte(buff[pos], buff[pos..]);
          assert buff[pos..][1..] == buff[pos + 1..];
          pos := pos + 1;
          continue;
        } else if tlsRecPos != 5 && tlsRecPos == tlsRecSize {
          NextRecord(buff[pos..]);
          continue;
        }
        var end;
        ok, end := SkipFragment(n - pos, buff[pos..]);
        if !ok {
          return;
        }
        assert buff[pos..][end..] == buff[pos + end..];
        pos := pos + end;
      }
      NothingToRead(Now());
      assert buff[pos..] == [];
      ok := true;
    }

    // The branch for a byte of the header; `s` is what is still to be read.
    method StoreByte(b: byte, ghost s: seq<byte>)
      requires PlaceOk(Now()) && tlsRecPos < 5 && s != [] && s[0] == b
      modifies this`tlsRecPos, tlsRec
      ensures PlaceOk(Now()) && FeedAll(Now(), s[1..]) == FeedAll(old(Now()), s)
    {
      hide FeedAll, Feed;
      StoreOne(Now(), s);
      tlsRec[tlsRecPos] := b;
      tlsRecPos := tlsRecPos + 1;
    }

    // The branch for the end of a record.
    method NextRecord(ghost s: seq<byte>)
      requires PlaceOk(Now()) && tlsRecPos > 5 && tlsRecPos == tlsRecSize && s != []
      modifies this`tlsRecPos, this`tlsRecSize
      ensures PlaceOk(Now()) && tlsRecPos == 0 && FeedAll(Now(), s) == FeedAll(old(Now()), s)
    {
      hide FeedAll, Feed;
      StartOver(Now(), s);
      tlsRecPos := 0;
      tlsRecSize := 0;
    }

    // The branch for the first byte behind a header, and what is done for all bytes of a fragment.
    method SkipFragment(left: nat, ghost s: seq<byte>) returns (ok: bool, end: nat)
      requires PlaceOk(Now()) && tlsRecPos >= 5 && (tlsRecPos == 5 || tlsRecPos != tlsRecSize)
      requires left == |s| && s != []
      modifies this`tlsRecPos, this`tlsRecSize
      ensures !ok ==> FeedAll(old(Now()), s).Bad?
      ensures ok ==> PlaceOk(Now()) && 0 < end <= left && FeedAll(Now(), s[end..]) == FeedAll(old(Now()), s)
    {
      hide FeedAll, Feed;
      ghost var p := Now();
      end := 0;
      if tlsRecPos == 5 {
        if !GoodHeader(p.rec) { BadHeader(p, s); }
        tlsRecSize := Word(tlsRec[3], tlsRec[4]) + 5;
        var t := tlsRec[0];
        if t < 0x14 || t > 0x18 {
          return false, 0;
        }
      }
      if tlsRecSize - tlsRecPos <= 0 {
        return false, 0;
      }
      end := tlsRecSize - tlsRecPos;
      if end > left { end := left; }
      SkipAhead(p, s, end);
      tlsRecPos := tlsRecPos + end;
      ok := true;
    }

    lemma NothingToRead(p: Place)
      requires |p.rec| == 5
      ensures FeedAll(p, []) == Fine(p)
    {
    }
  }
}
