// Joining TLS records that have been cut (byedpi/packets.c, merge_tls_records).

module TlsMerge {
  import opened Common
  import opened TlsRecords

  // The loop of merge_tls_records: the buffer, full_sz (16 bits), r_sz and the count of headers
  // removed.
  datatype Merging = Merging(buf: seq<byte>, full: nat, size: nat, count: nat)

  // One turn of the loop on the first n bytes, or None when it breaks.
  function MergeStep(m: Merging, n: nat): Option<Merging>
    requires 5 <= n <= |m.buf|
  {
    var full := (m.full + m.size) % 0x10000;
    if 5 + full > n - 5 || m.buf[5 + full] != m.buf[0] then None
    else
      var size := SizeAt(m.buf, 5 + full + 3);
      if full + 10 + size > n then None
      else Some(Merging(Joined(m.buf, n, 5 + full), full, size, m.count + 1))
  }

  // The buffer without the header at `h`: the rest of the n bytes moves up, and the last five
  // stay where they were as well.
  function Joined(s: seq<byte>, n: nat, h: nat): (r: seq<byte>)
    requires h + 5 <= n <= |s|
    ensures |r| == |s|
  {
    s[..h] + s[h + 5..n] + s[n - 5..n] + s[n..]
  }

  // The loop, given that it breaks within `fuel` turns.
  function MergeLoop(m: Merging, n: nat, fuel: nat): Option<Merging>
    requires 5 <= n <= |m.buf|
    decreases fuel
  {
    match MergeStep(m, n)
    case None => Some(m.(full := (m.full + m.size) % 0x10000))
    case Some(next) => if fuel == 0 then None else MergeLoop(next, n, fuel - 1)
  }

  function MergeBegin(s: seq<byte>): Merging
    requires |s| >= 5
  {
    Merging(s, 0, SizeAt(s, 3), 0)
  }

  // The two lengths written at the end: of the record, and of the handshake message in it.
  function Relabelled(s: seq<byte>, full: nat): seq<byte>
    requires |s| >= 9
  {
    var handshake := (full - 4) % 0x10000;
    s[3 := Be16(full)[0]][4 := Be16(full)[1]][7 := Be16(handshake)[0]][8 := Be16(handshake)[1]]
  }

  lemma MergeTurn(m: Merging, n: nat, fuel: nat)
    requires 5 <= n <= |m.buf| && MergeLoop(m, n, fuel).Some?
    ensures match MergeStep(m, n)
      case None => MergeLoop(m, n, fuel) == Some(m.(full := (m.full + m.size) % 0x10000))
      case Some(next) => fuel > 0 && MergeLoop(m, n, fuel) == MergeLoop(next, n, fuel - 1)
  {
  }

  // The memmove of merge_tls_records.
  method CloseGap(a: array<byte>, h: nat, n: nat)
    requires h + 5 <= n <= a.Length
    modifies a
    ensures a[..] == Joined(old(a[..]), n, h)
  {
    forall i | h <= i < n - 5 {
      a[i] := a[i + 5];
    }
    JoinedBytes(old(a[..]), a[..], n, h);
  }

  lemma JoinedBytes(s: seq<byte>, r: seq<byte>, n: nat, h: nat)
    requires h + 5 <= n <= |s| == |r|
    requires forall i :: h <= i < n - 5 ==> r[i] == s[i + 5]
    requires forall i :: 0 <= i < h || n - 5 <= i < |s| ==> r[i] == s[i]
    ensures r == Joined(s, n, h)
  {
  }

  // The loop of merge_tls_records, when it ends.
  method MergeRun(a: array<byte>, n: nat, ghost fuel: nat) returns (full: nat, size: nat, i: nat)
    requires 5 <= n <= a.Length && MergeLoop(MergeBegin(a[..]), n, fuel).Some?
    modifies a
    ensures MergeLoop(MergeBegin(old(a[..])), n, fuel) == Some(Merging(a[..], full, size, i))
  {
    hide Be16, MergeLoop, Joined, Word;
    full, size, i := 0, Word(a[3], a[4]), 0;
    ghost var left := fuel;
    while true
      invariant MergeLoop(Merging(a[..], full, size, i), n, left) == MergeLoop(MergeBegin(old(a[..])), n, fuel)
      decreases left
    {
      MergeTurn(Merging(a[..], full, size, i), n, left);
      full := (full + size) % 0x10000;
      if 5 + full > n - 5 || a[5 + full] != a[0] { break; }
      var next := Word(a[5 + full + 3], a[5 + full + 4]);
      if full + 10 + next > n { break; }
      size := next;
      CloseGap(a, 5 + full, n);
      i := i + 1;
      left := left - 1;
    }
  }

  // merge_tls_records, when its loop ends.
  method MergeTlsRecords(a: array<byte>, n: nat, ghost fuel: nat) returns (gain: nat)
    requires 9 <= a.Length && n <= a.Length
    requires n >= 5 ==> MergeLoop(MergeBegin(a[..]), n, fuel).Some?
    modifies a
    ensures n < 5 ==> gain == 0 && a[..] == old(a[..])
    ensures n >= 5 ==> var m := MergeLoop(MergeBegin(old(a[..])), n, fuel).value;
      |m.buf| == a.Length && gain == 5 * m.count && a[..] == Relabelled(m.buf, m.full)
  {
    hide MergeLoop, Relabelled;
    if n < 5 { return 0; }
    var full, size, i := MergeRun(a, n, fuel);
    Relabel(a, full);
    gain := i * 5;
  }

  // The end of merge_tls_records.
  method Relabel(a: array<byte>, full: nat)
    requires 9 <= a.Length
    modifies a
    ensures a[..] == Relabelled(old(a[..]), full)
  {
    hide Be16;
    PutWord(a, 3, full);
    PutWord(a, 7, (full - 4) % 0x10000);
  }

  // ---------------------------------------------------------------------------------------
  // Joining what has been cut
  // ---------------------------------------------------------------------------------------

  function Copies(t: seq<byte>, c: nat): (r: seq<byte>)
    ensures |r| == c * |t|
  {
    if c == 0 then [] else Copies(t, c - 1) + t
  }

  lemma {:induction false} CopiesFront(t: seq<byte>, c: nat)
    ensures t + Copies(t, c) == Copies(t, c + 1)
  {
    if c > 0 {
      CopiesFront(t, c - 1);
      assert t + (Copies(t, c - 1) + t) == (t + Copies(t, c - 1)) + t;
    } else {
      assert t + [] == [] + t;
    }
  }

  // The loop has `front` behind it; then come the fragments that are left, and then a copy of
  // the last five bytes `t` for each header removed.
  ghost predicate Midway(m: Merging, n: nat, front: seq<byte>, kind: seq<byte>, size: nat, body: seq<byte>,
    sizes: seq<nat>, t: seq<byte>, c: nat)
  {
    && |front| >= 5 && |kind| == 3 && front[0] == kind[0] && |t| == 5
    && m.full + m.size == |front| - 5 && |front| - 5 + size < 0x10000
    && |body| == size && Sum(sizes) <= size
    && n == |front| + 5 + size + 5 * |sizes| + 5 * c <= |m.buf|
    && m.buf[..n] == front + Framed(kind, size, body, sizes) + Copies(t, c)
    && m.buf[n - 5..n] == t
  }

  // All fragments are behind the loop.
  ghost predicate AllJoined(m: Merging, n: nat, front: seq<byte>, kind: seq<byte>, t: seq<byte>, c: nat) {
    && |front| >= 5 && |kind| == 3 && front[0] == kind[0] && |t| == 5 && c > 0
    && m.full + m.size == |front| - 5 < 0x10000
    && n == |front| + 5 * c <= |m.buf|
    && m.buf[..n] == front + Copies(t, c)
  }

  lemma JoinedPrefix(s: seq<byte>, n: nat, front: seq<byte>, h: seq<byte>, back: seq<byte>, t: seq<byte>)
    requires 5 <= n <= |s| && |h| == 5 && s[..n] == front + h + back && s[n - 5..n] == t
    ensures var r := Joined(s, n, |front|);
      r[..n] == front + back + t && r[n - 5..n] == t
  {
    var r := Joined(s, n, |front|);
    assert s[..|front|] == front by { assert s[..|front|] == s[..n][..|front|]; }
    assert s[|front| + 5..n] == back by { assert s[|front| + 5..n] == s[..n][|front| + 5..]; }
    assert r[..n] == front + back + t;
  }

  // The next header, where the loop looks for it.
  lemma HeaderThere(s: seq<byte>, n: nat, front: seq<byte>, h: seq<byte>, back: seq<byte>)
    requires n <= |s| && |h| == 5 && s[..n] == front + h + back
    ensures |front| + 5 <= n && s[|front|] == h[0] && SizeAt(s, |front| + 3) == SizeAt(h, 3)
    ensures |front| > 0 ==> s[0] == front[0]
  {
    assert s[|front|] == s[..n][|front|] && s[|front| + 3] == s[..n][|front| + 3];
    assert s[|front| + 4] == s[..n][|front| + 4];
    if |front| > 0 { assert s[0] == s[..n][0]; }
  }

  // The turn of the loop on a header that fits.
  lemma JoinTurn(m: Merging, n: nat, front: seq<byte>, h: seq<byte>, back: seq<byte>)
    requires 5 <= n <= |m.buf| && |h| == 5 && m.buf[..n] == front + h + back && |front| >= 5
    requires m.full + m.size == |front| - 5 < 0x10000 && h[0] == front[0] && SizeAt(h, 3) <= |back|
    ensures |front| + 5 <= n
    ensures MergeStep(m, n) == Some(Merging(Joined(m.buf, n, |front|), |front| - 5, SizeAt(h, 3), m.count + 1))
  {
    hide SizeAt, Joined;
    HeaderThere(m.buf, n, front, h, back);
  }

  lemma SizeInHeader(kind: seq<byte>, size: nat)
    requires |kind| == 3 && size < 0x10000
    ensures SizeAt(Header(kind, size), 3) == size && Header(kind, size)[0] == kind[0]
  {
  }

  lemma JoinOne(m: Merging, n: nat, front: seq<byte>, kind: seq<byte>, size: nat, body: seq<byte>, sizes: seq<nat>,
    t: seq<byte>, c: nat)
    requires Midway(m, n, front, kind, size, body, sizes, t, c) && sizes != []
    ensures n >= 5 && MergeStep(m, n).Some?
    ensures sizes[0] <= size && sizes[0] + Sum(sizes[1..]) == Sum(sizes)
    ensures var next := MergeStep(m, n).value;
      && next.count == m.count + 1
      && Midway(next, n, front + body[..sizes[0]], kind, size - sizes[0], body[sizes[0]..], sizes[1..], t, c + 1)
  {
    hide SizeAt, Framed, Sum, Header, Joined, Be16, MergeStep, Copies;
    FramedUnfolds(kind, size, body, sizes);
    var s := sizes[0];
    SizeInHeader(kind, s);
    var frames := Framed(kind, size - s, body[s..], sizes[1..]);
    var h, back := Header(kind, s), body[..s] + frames + Copies(t, c);
    Reassociate(front, h, body[..s], frames, Copies(t, c));
    JoinTurn(m, n, front, h, back);
    JoinedPrefix(m.buf, n, front, h, back, t);
    CopiesNext(t, c);
    Reassociate2(front, body[..s], frames, Copies(t, c), t);
  }

  lemma CopiesNext(t: seq<byte>, c: nat)
    ensures Copies(t, c + 1) == Copies(t, c) + t
  {
  }

  lemma Reassociate(front: seq<byte>, h: seq<byte>, b: seq<byte>, f: seq<byte>, c: seq<byte>)
    ensures front + (h + b + f) + c == front + h + (b + f + c)
  {
  }

  lemma Reassociate2(front: seq<byte>, b: seq<byte>, f: seq<byte>, c: seq<byte>, t: seq<byte>)
    ensures front + (b + f + c) + t == (front + b) + f + (c + t)
  {
  }

  lemma JoinLast(m: Merging, n: nat, front: seq<byte>, kind: seq<byte>, size: nat, body: seq<byte>,
    t: seq<byte>, c: nat)
    requires Midway(m, n, front, kind, size, body, [], t, c)
    ensures n >= 5 && MergeStep(m, n).Some?
    ensures var next := MergeStep(m, n).value;
      next.count == m.count + 1 && AllJoined(next, n, front + body, kind, t, c + 1)
  {
    hide SizeAt, Sum, Header, Joined, Be16, MergeStep, Copies;
    PlainFrame(kind, size, body);
    hide Framed;
    SizeInHeader(kind, size);
    var h, back := Header(kind, size), body + Copies(t, c);
    assert front + (h + body) + Copies(t, c) == front + h + back;
    JoinTurn(m, n, front, h, back);
    JoinedPrefix(m.buf, n, front, h, back, t);
    CopiesNext(t, c);
    assert front + (body + Copies(t, c)) + t == (front + body) + (Copies(t, c) + t);
  }

  // The loop gets from `m` to `last` in k turns.
  ghost predicate GetsTo(m: Merging, last: Merging, n: nat, k: nat) {
    && 5 <= n <= |m.buf| && n <= |last.buf|
    && forall fuel: nat :: MergeLoop(m, n, fuel) == if fuel >= k then MergeLoop(last, n, fuel - k) else None
  }

  lemma GetsThere(m: Merging, next: Merging, last: Merging, n: nat, k: nat)
    requires 5 <= n <= |m.buf| && MergeStep(m, n) == Some(next) && GetsTo(next, last, n, k)
    ensures GetsTo(m, last, n, k + 1)
  {
    forall fuel: nat
      ensures MergeLoop(m, n, fuel) == if fuel >= k + 1 then MergeLoop(last, n, fuel - (k + 1)) else None
    {
      if fuel > 0 { assert MergeLoop(m, n, fuel) == MergeLoop(next, n, fuel - 1); }
    }
  }

  // The loop removes one header after the other.
  lemma {:induction false} JoinAll(m: Merging, n: nat, front: seq<byte>, kind: seq<byte>, size: nat, body: seq<byte>,
    sizes: seq<nat>, t: seq<byte>, c: nat) returns (last: Merging)
    requires Midway(m, n, front, kind, size, body, sizes, t, c)
    ensures last.count == m.count + |sizes| + 1
    ensures AllJoined(last, n, front + body, kind, t, c + |sizes| + 1)
    ensures GetsTo(m, last, n, |sizes| + 1)
    decreases |sizes|
  {
    hide Midway, AllJoined, MergeStep, MergeLoop, Sum;
    MidwayFacts(m, n, front, kind, size, body, sizes, t, c);
    if sizes == [] {
      JoinLast(m, n, front, kind, size, body, t, c);
      last := MergeStep(m, n).value;
      AllJoinedFits(last, n, front + body, kind, t, c + 1);
      GetsNowhere(last, n);
      GetsThere(m, last, last, n, 0);
    } else {
      JoinOne(m, n, front, kind, size, body, sizes, t, c);
      var next := MergeStep(m, n).value;
      last := JoinAll(next, n, front + body[..sizes[0]], kind, size - sizes[0], body[sizes[0]..], sizes[1..], t, c + 1);
      assert front + body[..sizes[0]] + body[sizes[0]..] == front + body;
      GetsThere(m, next, last, n, |sizes|);
    }
  }

  lemma MidwayFacts(m: Merging, n: nat, front: seq<byte>, kind: seq<byte>, size: nat, body: seq<byte>, sizes: seq<nat>,
    t: seq<byte>, c: nat)
    requires Midway(m, n, front, kind, size, body, sizes, t, c)
    ensures |body| == size && 5 <= n <= |m.buf|
  {
  }

  lemma AllJoinedFits(m: Merging, n: nat, front: seq<byte>, kind: seq<byte>, t: seq<byte>, c: nat)
    requires AllJoined(m, n, front, kind, t, c)
    ensures 5 <= n <= |m.buf|
  {
  }

  lemma GetsNowhere(m: Merging, n: nat)
    requires 5 <= n <= |m.buf|
    ensures GetsTo(m, m, n, 0)
  {
  }

  // The header the loop then sees is a copy of the last five bytes.
  lemma AfterAll(m: Merging, n: nat, front: seq<byte>, kind: seq<byte>, t: seq<byte>, c: nat)
    requires AllJoined(m, n, front, kind, t, c)
    ensures n >= 5
    ensures MergeStep(m, n).None? <==> t[0] != kind[0] || SizeAt(t, 3) > 5 * c - 5
    ensures MergeStep(m, n).Some? ==> MergeStep(m, n).value.count == m.count + 1
    ensures (m.full + m.size) % 0x10000 == |front| - 5
    ensures m.buf[..|front|] == front
  {
    hide Copies, SizeAt;
    CopiesFront(t, c - 1);
    Regroup(front, t, Copies(t, c - 1));
    HeaderThere(m.buf, n, front, t, Copies(t, c - 1));
    assert m.buf[..|front|] == m.buf[..n][..|front|];
  }

  lemma {:induction false} CountGrows(m: Merging, n: nat, fuel: nat)
    requires 5 <= n <= |m.buf|
    ensures MergeLoop(m, n, fuel).Some? ==> MergeLoop(m, n, fuel).value.count >= m.count
    decreases fuel
  {
    if MergeStep(m, n).Some? && fuel > 0 {
      CountGrows(MergeStep(m, n).value, n, fuel - 1);
    }
  }

  // `b` is one complete record holding one handshake message.
  ghost predicate WholeMessage(b: seq<byte>) {
    |b| >= 9 && |b| == 5 + SizeAt(b, 3) && SizeAt(b, 7) == SizeAt(b, 3) - 4
  }

  // merge_tls_records, on the first n bytes of the buffer, ends, returns five bytes for each of
  // `cuts` headers, and puts `b` back.
  ghost predicate MergesBack(buf: seq<byte>, n: nat, b: seq<byte>, cuts: nat)
    requires 9 <= |b| <= n <= |buf|
  {
    exists fuel: nat :: MergedBack(MergeLoop(MergeBegin(buf), n, fuel), b, cuts)
  }

  ghost predicate MergedBack(r: Option<Merging>, b: seq<byte>, cuts: nat) {
    r.Some? && r.value.count == cuts && |r.value.buf| >= |b| >= 9 && Relabelled(r.value.buf, r.value.full)[..|b|] == b
  }

  // The first fragment is behind the loop before its first turn.
  lemma SplitBegins(kind: seq<byte>, size: nat, body: seq<byte>, buf: seq<byte>, sizes: seq<nat>, n: nat)
    requires |kind| == 3 && |body| == size < 0x10000 && sizes != [] && Sum(sizes) <= size
    requires n == 5 + size + 5 * |sizes| <= |buf| && buf[..n] == Framed(kind, size, body, sizes)
    ensures sizes[0] <= size
    ensures Midway(MergeBegin(buf), n, Header(kind, sizes[0]) + body[..sizes[0]], kind, size - sizes[0],
                   body[sizes[0]..], sizes[1..], buf[n - 5..n], 0)
  {
    hide Be16, Framed, SizeAt, Sum, Header;
    FramedUnfolds(kind, size, body, sizes);
    SizeInHeader(kind, sizes[0]);
    var frames := Framed(kind, size - sizes[0], body[sizes[0]..], sizes[1..]);
    var front := Header(kind, sizes[0]) + body[..sizes[0]];
    FirstSize(buf, n, Header(kind, sizes[0]), body[..sizes[0]], frames);
    NoCopies(front + frames, buf[n - 5..n]);
  }

  lemma NoCopies(s: seq<byte>, t: seq<byte>)
    ensures s + Copies(t, 0) == s
  {
  }

  lemma FirstSize(buf: seq<byte>, n: nat, h: seq<byte>, b: seq<byte>, f: seq<byte>)
    requires n <= |buf| && |h| == 5 && buf[..n] == (h + b) + f
    ensures 5 <= n && SizeAt(buf, 3) == SizeAt(h, 3)
  {
    assert buf[3] == buf[..n][3] && buf[4] == buf[..n][4];
  }

  lemma RelabelRestores(b: seq<byte>, buf: seq<byte>, s: nat)
    requires WholeMessage(b) && s < 0x10000
    requires |buf| >= |b| && buf[..|b|] == Header(b[..3], s) + b[5..]
    ensures Relabelled(buf, |b| - 5)[..|b|] == b
  {
    LabelsAre(b);
    hide Be16, SizeAt;
    var r := Relabelled(buf, |b| - 5);
    forall i | 0 <= i < |b| ensures r[..|b|][i] == b[i] {
      assert buf[i] == buf[..|b|][i];
      if i >= 5 { assert (Header(b[..3], s) + b[5..])[i] == b[i]; }
    }
  }

  lemma LabelsAre(b: seq<byte>)
    requires WholeMessage(b)
    ensures [b[3], b[4]] == Be16(|b| - 5) && [b[7], b[8]] == Be16((|b| - 9) % 0x10000)
  {
    hide Be16;
    LabelIs(b, 3);
    LabelIs(b, 7);
  }

  lemma LabelIs(b: seq<byte>, i: nat)
    requires i + 1 < |b|
    ensures [b[i], b[i + 1]] == Be16(SizeAt(b, i))
  {
    WordIs([b[i], b[i + 1]], SizeAt(b, i));
  }

  // Of a message cut into two or more records, the last five bytes of the buffer, and the state
  // of the loop once it has removed all headers.
  lemma SplitJoined(b: seq<byte>, buf: seq<byte>, sizes: seq<nat>, n: nat) returns (last: Merging)
    requires WholeMessage(b) && sizes != [] && Sum(sizes) <= SizeAt(b, 3)
    requires n == |b| + 5 * |sizes| <= |buf| && buf[..n] == Framed(b[..3], SizeAt(b, 3), b[5..], sizes)
    ensures last.count == |sizes| && GetsTo(MergeBegin(buf), last, n, |sizes|)
    ensures AllJoined(last, n, Header(b[..3], sizes[0]) + b[5..], b[..3], buf[n - 5..n], |sizes|)
  {
    hide Be16, Framed, Midway, AllJoined, GetsTo, SizeAt, Header;
    var kind, size, body := b[..3], SizeAt(b, 3), b[5..];
    SplitBegins(kind, size, body, buf, sizes, n);
    var front := Header(kind, sizes[0]) + body[..sizes[0]];
    last := JoinAll(MergeBegin(buf), n, front, kind, size - sizes[0], body[sizes[0]..], sizes[1..], buf[n - 5..n], 0);
    assert front + body[sizes[0]..] == Header(kind, sizes[0]) + body;
  }

  // Cutting a complete message and joining it again gives the message back if and only if the
  // last five bytes of the cut buffer do not look like one more header: of the same type, with a
  // fragment that fits.  (The loop compares with the length the buffer had before it removed
  // anything, so it looks at bytes it has already moved.)
  lemma SplitThenMerge(b: seq<byte>, buf: seq<byte>, sizes: seq<nat>, n: nat)
    requires WholeMessage(b) && sizes != [] && Sum(sizes) <= SizeAt(b, 3)
    requires n == |b| + 5 * |sizes| <= |buf| && buf[..n] == Framed(b[..3], SizeAt(b, 3), b[5..], sizes)
    ensures MergesBack(buf, n, b, |sizes|) <==>
      buf[n - 5] != b[0] || SizeAt(buf, n - 2) > 5 * |sizes| - 5
  {
    hide Framed, GetsTo, MergeStep, MergeLoop, Be16, SizeAt, Relabelled, WholeMessage, Header, MergesBack, Sum;
    hide MergedBack;
    var last := AfterSplit(b, buf, sizes, n);
    if MergeStep(last, n).None? {
      JoinedBack(buf, last, sizes[0], n, |sizes|, b);
    } else {
      NeverBack(buf, last, n, b, |sizes|);
    }
  }

  lemma IsBack(buf: seq<byte>, last: Merging, n: nat, k: nat, b: seq<byte>)
    requires 9 <= |b| <= n <= |buf| && MergeLoop(MergeBegin(buf), n, k) == Some(last) && last.count == k
    requires |last.buf| >= |b| && Relabelled(last.buf, last.full)[..|b|] == b
    ensures MergesBack(buf, n, b, k)
  {
    hide MergeLoop, Relabelled;
    assert MergedBack(MergeLoop(MergeBegin(buf), n, k), b, k);
  }

  lemma JoinedBack(buf: seq<byte>, last: Merging, s: nat, n: nat, k: nat, b: seq<byte>)
    requires WholeMessage(b) && s < 0x10000 && 9 <= |b| <= n <= |buf| && n <= |last.buf|
    requires last.count == k && GetsTo(MergeBegin(buf), last, n, k) && MergeStep(last, n).None?
    requires (last.full + last.size) % 0x10000 == |b| - 5 && last.buf[..|b|] == Header(b[..3], s) + b[5..]
    ensures MergesBack(buf, n, b, k)
  {
    hide MergeLoop, Relabelled, GetsTo, MergeStep, WholeMessage, Header, MergesBack;
    RelabelRestores(b, last.buf, s);
    EndsHere(MergeBegin(buf), last, n, k);
    IsBack(buf, last.(full := |b| - 5), n, k, b);
  }

  lemma NeverBack(buf: seq<byte>, last: Merging, n: nat, b: seq<byte>, cuts: nat)
    requires 9 <= |b| <= n <= |buf| && last.count == cuts && GetsTo(MergeBegin(buf), last, n, cuts)
    requires MergeStep(last, n).Some? && MergeStep(last, n).value.count == last.count + 1
    ensures !MergesBack(buf, n, b, cuts)
  {
    hide MergeLoop, GetsTo, MergeStep, Relabelled;
    forall fuel: nat ensures !MergedBack(MergeLoop(MergeBegin(buf), n, fuel), b, cuts) {
      GoesFurther(MergeBegin(buf), last, n, cuts, fuel);
    }
  }

  lemma AfterSplit(b: seq<byte>, buf: seq<byte>, sizes: seq<nat>, n: nat) returns (last: Merging)
    requires WholeMessage(b) && sizes != [] && Sum(sizes) <= SizeAt(b, 3)
    requires n == |b| + 5 * |sizes| <= |buf| && buf[..n] == Framed(b[..3], SizeAt(b, 3), b[5..], sizes)
    ensures last.count == |sizes| && GetsTo(MergeBegin(buf), last, n, |sizes|)
    ensures 9 <= |b| <= n <= |last.buf| && sizes[0] < 0x10000
    ensures MergeStep(last, n).None? <==> buf[n - 5] != b[0] || SizeAt(buf, n - 2) > 5 * |sizes| - 5
    ensures MergeStep(last, n).Some? ==> MergeStep(last, n).value.count == last.count + 1
    ensures (last.full + last.size) % 0x10000 == |b| - 5
    ensures last.buf[..|b|] == Header(b[..3], sizes[0]) + b[5..]
  {
    hide Framed, GetsTo, MergeStep, Be16, Header, AllJoined;
    last := SplitJoined(b, buf, sizes, n);
    var t, front := buf[n - 5..n], Header(b[..3], sizes[0]) + b[5..];
    AllJoinedFits(last, n, front, b[..3], t, |sizes|);
    AfterAll(last, n, front, b[..3], t, |sizes|);
    assert t[0] == buf[n - 5] && t[3] == buf[n - 2] && t[4] == buf[n - 1];
  }

  lemma EndsHere(m: Merging, last: Merging, n: nat, k: nat)
    requires GetsTo(m, last, n, k) && MergeStep(last, n).None?
    ensures MergeLoop(m, n, k) == Some(last.(full := (last.full + last.size) % 0x10000))
  {
  }

  lemma GoesFurther(m: Merging, last: Merging, n: nat, k: nat, fuel: nat)
    requires GetsTo(m, last, n, k) && MergeStep(last, n).Some? && MergeStep(last, n).value.count == last.count + 1
    ensures MergeLoop(m, n, fuel).Some? ==> MergeLoop(m, n, fuel).value.count > last.count
  {
    if fuel > k { CountGrows(MergeStep(last, n).value, n, fuel - k - 1); }
  }

  // An uncut message is left alone.
  lemma MergeLeavesWhole(b: seq<byte>, buf: seq<byte>)
    requires WholeMessage(b) && |b| <= |buf| && buf[..|b|] == b
    ensures MergesBack(buf, |b|, b, 0)
  {
    hide Relabelled, MergeLoop, WholeMessage;
    MessageFits(b);
    NoTurn(b, buf);
    UnchangedLabels(b, buf);
    IsBack(buf, Merging(buf, |b| - 5, |b| - 5, 0), |b|, 0, b);
  }

  lemma NoTurn(b: seq<byte>, buf: seq<byte>)
    requires WholeMessage(b) && |b| <= |buf| && buf[..|b|] == b
    ensures MergeLoop(MergeBegin(buf), |b|, 0) == Some(Merging(buf, |b| - 5, |b| - 5, 0))
  {
    hide Word, Joined;
    PrefixAgrees(buf, |b|, b, 0);
  }

  lemma UnchangedLabels(b: seq<byte>, buf: seq<byte>)
    requires WholeMessage(b) && |b| <= |buf| && buf[..|b|] == b
    ensures Relabelled(buf, |b| - 5)[..|b|] == b
  {
    LabelsAre(b);
    hide Be16, SizeAt;
    var r := Relabelled(buf, |b| - 5);
    forall i | 0 <= i < |b| ensures r[..|b|][i] == b[i] {
      assert buf[i] == buf[..|b|][i];
    }
  }

  // ---------------------------------------------------------------------------------------
  // Whether joining ends
  // ---------------------------------------------------------------------------------------

  datatype Fate = Ends | Circles | Wraps

  // The length in a header that begins at offset e of copies of `t`.
  function LengthIn(t: seq<byte>, e: nat): (r: nat)
    requires |t| == 5
    ensures r < 0x10000
  {
    SizeAt(t + t, e % 5 + 3)
  }

  // Once all headers are removed the loop walks on through `c` copies of the last five bytes `t`,
  // which stay as they are.  At offset `e` it reads a header: it ends when that has another type or
  // does not fit, and it reads the same header for ever when the length there is zero.  Beyond the
  // offset `room` the 16-bit sum begins again at zero.
  function Walk(t: seq<byte>, kind: byte, c: nat, e: nat, room: nat): Fate
    requires |t| == 5
    decreases 5 * c - e
  {
    if e > room then Wraps
    else if e + 5 > 5 * c || t[e % 5] != kind then Ends
    else
      var size := LengthIn(t, e);
      if e + 5 + size > 5 * c then Ends
      else if size == 0 then Circles
      else Walk(t, kind, c, e + size, room)
  }

  // The loop stands at offset `e` of the copies.
  ghost predicate InCopies(m: Merging, n: nat, front: seq<byte>, kind: byte, t: seq<byte>, c: nat, e: nat) {
    && |front| >= 5 && front[0] == kind && |t| == 5 && c > 0
    && m.full + m.size == |front| - 5 + e
    && n == |front| + 5 * c <= |m.buf|
    && m.buf[..n] == front + Copies(t, c)
  }

  lemma {:induction false} CopiesAt(t: seq<byte>, c: nat, i: nat)
    requires |t| == 5 && i < 5 * c
    ensures Copies(t, c)[i] == t[i % 5]
  {
    if i < 5 * (c - 1) { CopiesAt(t, c - 1, i); } else { assert i % 5 == i - 5 * (c - 1); }
  }

  lemma BufferAt(m: Merging, n: nat, front: seq<byte>, kind: byte, t: seq<byte>, c: nat, e: nat, i: nat)
    requires InCopies(m, n, front, kind, t, c, e) && i < 5 * c
    ensures m.buf[|front| + i] == t[i % 5]
  {
    CopiesAt(t, c, i);
    assert m.buf[|front| + i] == m.buf[..n][|front| + i];
  }

  // Removing five bytes anywhere in the copies leaves the copies as they were.
  lemma CopiesStay(m: Merging, n: nat, front: seq<byte>, kind: byte, t: seq<byte>, c: nat, e: nat)
    requires InCopies(m, n, front, kind, t, c, e) && e + 5 <= 5 * c
    ensures Joined(m.buf, n, |front| + e)[..n] == front + Copies(t, c)
  {
    hide Copies, Joined, InCopies;
    CopiesFacts(m, n, front, kind, t, c, e);
    var h := |front| + e;
    var r, s := Joined(m.buf, n, h), m.buf;
    forall i | 0 <= i < n ensures r[i] == s[i] {
      JoinedAt(s, n, h, i);
      if h <= i < n - 5 {
        BufferAt(m, n, front, kind, t, c, e, i - |front|);
        BufferAt(m, n, front, kind, t, c, e, i + 5 - |front|);
        SameRest(i - |front|);
      }
    }
    assert r[..n] == s[..n];
  }

  lemma SameRest(i: nat)
    ensures (i + 5) % 5 == i % 5
  {
  }

  lemma JoinedAt(s: seq<byte>, n: nat, h: nat, i: nat)
    requires h + 5 <= n <= |s| && i < n
    ensures Joined(s, n, h)[i] == if h <= i < n - 5 then s[i + 5] else s[i]
  {
  }

  lemma CopiesFacts(m: Merging, n: nat, front: seq<byte>, kind: byte, t: seq<byte>, c: nat, e: nat)
    requires InCopies(m, n, front, kind, t, c, e)
    ensures n == |front| + 5 * c <= |m.buf| && m.buf[..n] == front + Copies(t, c) && |t| == 5 && |front| >= 5 && c > 0
  {
  }

  // One turn of the loop is one step of the walk.
  lemma WalkTurn(m: Merging, n: nat, front: seq<byte>, kind: byte, t: seq<byte>, c: nat, e: nat)
    requires InCopies(m, n, front, kind, t, c, e) && |front| - 5 + e < 0x10000
    ensures var size := LengthIn(t, e);
      if e + 5 > 5 * c || t[e % 5] != kind || e + 5 + size > 5 * c then MergeStep(m, n).None?
      else MergeStep(m, n).Some? && InCopies(MergeStep(m, n).value, n, front, kind, t, c, e + size)
  {
    hide Copies, Joined, SizeAt, Word;
    if e + 5 <= 5 * c {
      HeaderInCopies(m, n, front, kind, t, c, e);
      CopiesStay(m, n, front, kind, t, c, e);
    }
  }

  lemma HeaderInCopies(m: Merging, n: nat, front: seq<byte>, kind: byte, t: seq<byte>, c: nat, e: nat)
    requires InCopies(m, n, front, kind, t, c, e) && e + 5 <= 5 * c
    ensures m.buf[0] == kind && m.buf[|front| + e] == t[e % 5]
    ensures SizeAt(m.buf, |front| + e + 3) == LengthIn(t, e)
  {
    hide Copies, Word;
    assert m.buf[0] == m.buf[..n][0];
    BufferAt(m, n, front, kind, t, c, e, e);
    BufferAt(m, n, front, kind, t, c, e, e + 3);
    BufferAt(m, n, front, kind, t, c, e, e + 4);
    InTwoCopies(t, e, 3);
    InTwoCopies(t, e, 4);
  }

  lemma InTwoCopies(t: seq<byte>, e: nat, k: nat)
    requires |t| == 5 && k < 5
    ensures t[(e + k) % 5] == (t + t)[e % 5 + k]
  {
    assert (e + k) % 5 == if e % 5 + k < 5 then e % 5 + k else e % 5 + k - 5;
  }

  lemma {:induction false} CirclesForever(m: Merging, n: nat, front: seq<byte>, kind: byte, t: seq<byte>, c: nat,
    e: nat, fuel: nat)
    requires InCopies(m, n, front, kind, t, c, e) && |front| - 5 + e < 0x10000
    requires e + 5 <= 5 * c && t[e % 5] == kind && LengthIn(t, e) == 0
    ensures MergeLoop(m, n, fuel) == None
    decreases fuel
  {
    hide InCopies, MergeStep;
    WalkTurn(m, n, front, kind, t, c, e);
    LoopFits(m, n, front, kind, t, c, e);
    if fuel > 0 { CirclesForever(MergeStep(m, n).value, n, front, kind, t, c, e, fuel - 1); }
  }

  lemma LoopFits(m: Merging, n: nat, front: seq<byte>, kind: byte, t: seq<byte>, c: nat, e: nat)
    requires InCopies(m, n, front, kind, t, c, e)
    ensures 5 <= n <= |m.buf| && |t| == 5
  {
  }

  // The loop ends, for some number of turns.
  ghost predicate LoopEnds(m: Merging, n: nat)
    requires 5 <= n <= |m.buf|
  {
    exists fuel: nat :: MergeLoop(m, n, fuel).Some?
  }

  // The walk tells whether the loop ends.
  lemma {:induction false} WalkIsLoop(m: Merging, n: nat, front: seq<byte>, kind: byte, t: seq<byte>, c: nat, e: nat)
    requires InCopies(m, n, front, kind, t, c, e) && |front| <= 0x10004
    ensures 5 <= n <= |m.buf| && |t| == 5
    ensures var w := Walk(t, kind, c, e, 0x10004 - |front|);
      (w.Ends? ==> LoopEnds(m, n)) && (w.Circles? ==> !LoopEnds(m, n))
    decreases 5 * c - e
  {
    hide InCopies, MergeStep, MergeLoop, LengthIn;
    LoopFits(m, n, front, kind, t, c, e);
    if e > 0x10004 - |front| { return; }
    WalkTurn(m, n, front, kind, t, c, e);
    OneMoreTurn(m, n);
    if e + 5 > 5 * c || t[e % 5] != kind { return; }
    var size := LengthIn(t, e);
    if e + 5 + size > 5 * c { return; }
    if size == 0 {
      forall f: nat ensures MergeLoop(m, n, f) == None { CirclesForever(m, n, front, kind, t, c, e, f); }
    } else {
      hide LoopEnds;
      WalkIsLoop(MergeStep(m, n).value, n, front, kind, t, c, e + size);
    }
  }

  lemma OneMoreTurn(m: Merging, n: nat)
    requires 5 <= n <= |m.buf|
    ensures match MergeStep(m, n)
      case None => LoopEnds(m, n)
      case Some(next) => n <= |next.buf| && (LoopEnds(m, n) <==> LoopEnds(next, n))
  {
    hide MergeStep;
    var step := MergeStep(m, n);
    if step.None? {
      assert MergeLoop(m, n, 0).Some?;
    } else {
      StepFits(m, n);
      var next := step.value;
      if LoopEnds(m, n) {
        var f: nat :| MergeLoop(m, n, f).Some?;
        assert MergeLoop(next, n, f - 1).Some?;
      }
      if LoopEnds(next, n) {
        var f: nat :| MergeLoop(next, n, f).Some?;
        assert MergeLoop(m, n, f + 1) == MergeLoop(next, n, f);
      }
    }
  }

  lemma StepFits(m: Merging, n: nat)
    requires 5 <= n <= |m.buf|
    ensures MergeStep(m, n).Some? ==> |MergeStep(m, n).value.buf| == |m.buf|
  {
  }

  // After a message has been cut the loop that joins it again ends if and only if the walk through
  // copies of the last five bytes does, unless that gets as far as the 16-bit sum can count, which
  // takes a buffer of more than 65545 bytes.
  lemma MergeEndsExactly(b: seq<byte>, buf: seq<byte>, sizes: seq<nat>, n: nat)
    requires WholeMessage(b) && sizes != [] && Sum(sizes) <= SizeAt(b, 3)
    requires n == |b| + 5 * |sizes| <= |buf| && buf[..n] == Framed(b[..3], SizeAt(b, 3), b[5..], sizes)
    ensures var w := Walk(buf[n - 5..n], b[0], |sizes|, 0, 0x10004 - |b|);
      && (w.Ends? ==> LoopEnds(MergeBegin(buf), n))
      && (w.Circles? ==> !LoopEnds(MergeBegin(buf), n))
      && (w.Wraps? ==> n > 0x10009)
      && (n <= 0x10009 ==> (LoopEnds(MergeBegin(buf), n) <==> w.Ends?))
  {
    hide Framed, AllJoined, MergeStep, Be16, InCopies, Walk, MergeLoop, SizeAt, GetsTo, LoopEnds, Header, Sum;
    var last := SplitJoined(b, buf, sizes, n);
    var t, front := buf[n - 5..n], Header(b[..3], sizes[0]) + b[5..];
    AtFirstCopy(last, n, front, b[..3], t, |sizes|);
    WalkIsLoop(last, n, front, b[0], t, |sizes|, 0);
    WrapsFar(t, b[0], |sizes|, 0, 0x10004 - |b|);
    LateEnd(MergeBegin(buf), last, n, |sizes|);
  }

  lemma AtFirstCopy(m: Merging, n: nat, front: seq<byte>, kind: seq<byte>, t: seq<byte>, c: nat)
    requires AllJoined(m, n, front, kind, t, c)
    ensures |kind| == 3 && InCopies(m, n, front, kind[0], t, c, 0)
  {
    hide Copies;
  }

  // What ends after the headers are removed ends, and nothing else.
  lemma LateEnd(m: Merging, last: Merging, n: nat, k: nat)
    requires 5 <= n <= |m.buf| && GetsTo(m, last, n, k)
    ensures LoopEnds(m, n) <==> LoopEnds(last, n)
  {
    hide MergeLoop;
    if LoopEnds(last, n) {
      var f: nat :| MergeLoop(last, n, f).Some?;
      assert MergeLoop(m, n, f + k) == MergeLoop(last, n, f);
    }
  }

  lemma {:induction false} WrapsFar(t: seq<byte>, kind: byte, c: nat, e: nat, room: nat)
    requires |t| == 5 && e <= 5 * c - 5 && c > 0
    ensures Walk(t, kind, c, e, room).Wraps? ==> room < 5 * c - 5
    decreases 5 * c - e
  {
    var size := LengthIn(t, e);
    if e <= room && t[e % 5] == kind && e + 5 + size <= 5 * c && size != 0 {
      WrapsFar(t, kind, c, e + size, room);
    }
  }

  // When the loop never ends for a handshake record: the last five bytes `t` begin with its type and
  // end in a length of zero, or they lead, with a length of 0x1600 and more, to one of zero that
  // begins at their fourth byte.
  predicate NeverEnds(t: seq<byte>, c: nat)
    requires |t| == 5
  {
    && t[0] == 0x16
    && ((t[3] == 0 && t[4] == 0)
        || (t[1] == 0 && t[2] == 0 && t[3] == 0x16 && t[4] % 5 == 1 && 0x1600 + t[4] + 5 <= 5 * c))
  }

  // Of a handshake record in a buffer of at most 65545 bytes, whatever the cuts, the loop never ends if
  // and only if the last five bytes are of that kind.
  lemma MergeNeverEnds(b: seq<byte>, buf: seq<byte>, sizes: seq<nat>, n: nat)
    requires WholeMessage(b) && sizes != [] && Sum(sizes) <= SizeAt(b, 3)
    requires n == |b| + 5 * |sizes| <= |buf| && buf[..n] == Framed(b[..3], SizeAt(b, 3), b[5..], sizes)
    requires b[0] == 0x16 && n <= 0x10009
    ensures !LoopEnds(MergeBegin(buf), n) <==> NeverEnds(buf[n - 5..n], |sizes|)
  {
    hide Framed, MergeLoop, Sum, LoopEnds, Walk, WholeMessage, SizeAt, Header, NeverEnds;
    MessageFits(b);
    MergeEndsExactly(b, buf, sizes, n);
    HandshakeWalk(buf[n - 5..n], |sizes|, 0x10004 - |b|);
  }

  lemma MessageFits(b: seq<byte>)
    requires WholeMessage(b)
    ensures 9 <= |b| <= 0x10004
  {
  }

  lemma HandshakeWalk(t: seq<byte>, c: nat, room: nat)
    requires |t| == 5 && 0 < c && 5 * c - 5 <= room
    ensures Walk(t, 0x16, c, 0, room).Circles? <==> NeverEnds(t, c)
  {
    hide LengthIn, Word;
    LengthParts(t, 0);
    WordZero(t[3], t[4]);
    if t[0] == 0x16 && !(t[3] == 0 && t[4] == 0) {
      if t[1] == 0 && t[2] == 0 && t[3] == 0x16 {
        LongStep(t, c, room);
      } else if t[2] == 0 && t[3] == 0 && t[4] == 0x16 {
        // the next header would begin at the third byte
        TypeAsLength(t, c, room);
      } else {
        NoCircle(t, c, 0, room);
      }
    }
  }

  lemma WordZero(high: byte, low: byte)
    ensures Word(high, low) == 0 <==> high == 0 && low == 0
  {
  }

  lemma TypeAsLength(t: seq<byte>, c: nat, room: nat)
    requires |t| == 5 && c > 0 && t[0] == 0x16 && t[2] == 0 && t[3] == 0 && t[4] == 0x16
    ensures !Walk(t, 0x16, c, 0, room).Circles?
  {
    hide LengthIn;
    LengthParts(t, 0);
    assert LengthIn(t, 0) == 22;
    assert !Walk(t, 0x16, c, 22, room).Circles?;
  }

  // The first length leads into the middle of the five bytes.
  lemma LongStep(t: seq<byte>, c: nat, room: nat)
    requires |t| == 5 && c > 0 && 5 * c - 5 <= room
    requires t[0] == 0x16 && t[1] == 0 && t[2] == 0 && t[3] == 0x16
    ensures Walk(t, 0x16, c, 0, room).Circles? <==> t[4] % 5 == 1 && 0x1600 + t[4] + 5 <= 5 * c
  {
    hide LengthIn, Word;
    LongLength(t);
    var z := LengthIn(t, 0);
    if 5 + z <= 5 * c {
      LengthParts(t, z);
      WordZero(t[1], t[2]);
      if z % 5 == 0 {
        MultiplesEnd(t, c, z, room);
      } else if z % 5 == 4 && t[4] == 0x16 {
        TypeInLength(t, z);
        assert !Walk(t, 0x16, c, z + 22, room).Circles?;
      }
    }
  }

  lemma LongLength(t: seq<byte>)
    requires |t| == 5 && t[3] == 0x16
    ensures var low: nat, z := t[4], LengthIn(t, 0);
      z == 0x1600 + low && z % 5 == (low + 2) % 5 && (z % 5 == 3 <==> low % 5 == 1)
  {
    LengthParts(t, 0);
  }

  lemma TypeInLength(t: seq<byte>, z: nat)
    requires |t| == 5 && z % 5 == 4 && t[2] == 0 && t[3] == 0x16
    ensures LengthIn(t, z) == 22 && (z + 22) % 5 == 1
  {
    LengthParts(t, z);
  }

  lemma {:induction false} MultiplesEnd(t: seq<byte>, c: nat, e: nat, room: nat)
    requires |t| == 5 && c > 0 && e % 5 == 0 && LengthIn(t, 0) % 5 == 0 && LengthIn(t, 0) > 0
    ensures !Walk(t, 0x16, c, e, room).Circles?
    decreases 5 * c - e
  {
    assert LengthIn(t, e) == LengthIn(t, 0);
    hide LengthIn;
    if e <= room && e + 5 + LengthIn(t, e) <= 5 * c { MultiplesEnd(t, c, e + LengthIn(t, e), room); }
  }

  // From no place in the copies does the walk get to a length of zero when no header has one.
  lemma {:induction false} NoCircle(t: seq<byte>, c: nat, e: nat, room: nat)
    requires |t| == 5 && 0 < c && t[0] == 0x16
    requires t[3] != 0 || t[4] != 0
    requires !(t[1] == 0 && t[2] == 0 && t[3] == 0x16) && !(t[2] == 0 && t[3] == 0 && t[4] == 0x16)
    ensures !Walk(t, 0x16, c, e, room).Circles?
    decreases 5 * c - e
  {
    hide LengthIn, Word;
    var size, j := LengthIn(t, e), e % 5;
    if e <= room && t[j] == 0x16 && e + 5 + size <= 5 * c {
      LengthParts(t, e);
      NotZero(t, j, t[if j < 2 then j + 3 else j - 2], t[if j < 1 then j + 4 else j - 1]);
      NoCircle(t, c, e + size, room);
    }
  }

  lemma LengthParts(t: seq<byte>, e: nat)
    requires |t| == 5
    ensures var j := e % 5;
      LengthIn(t, e) == Word(t[if j < 2 then j + 3 else j - 2], t[if j < 1 then j + 4 else j - 1])
  {
    var j := e % 5;
    assert (t + t)[j + 3] == t[if j < 2 then j + 3 else j - 2];
    assert (t + t)[j + 4] == t[if j < 1 then j + 4 else j - 1];
  }

  // The length in a header that begins at byte j.
  lemma NotZero(t: seq<byte>, j: nat, high: byte, low: byte)
    requires |t| == 5 && t[0] == 0x16
    requires t[3] != 0 || t[4] != 0
    requires !(t[1] == 0 && t[2] == 0 && t[3] == 0x16) && !(t[2] == 0 && t[3] == 0 && t[4] == 0x16)
    requires j < 5 && t[j] == 0x16
    requires high == t[if j < 2 then j + 3 else j - 2] && low == t[if j < 1 then j + 4 else j - 1]
    ensures Word(high, low) != 0
  {
    hide Word;
    WordZero(high, low);
  }

  // A handshake message of six bytes behind its header, the last five of which look like the header
  // of an empty record.
  const TRAP: seq<byte> := [0x16, 3, 1, 0, 10, 1, 0, 0, 6, 9, 0x16, 3, 1, 0, 0]

  // Cut after four bytes it is not restored, and the loop that joins it again never ends.
  lemma TrapNeverEnds()
    ensures WholeMessage(TRAP) && Sum([4]) == 4
    ensures var cut := Framed(TRAP[..3], 10, TRAP[5..], [4]);
      && cut[15..20] == [0x16, 3, 1, 0, 0]
      && !MergesBack(cut, 20, TRAP, 1) && !LoopEnds(MergeBegin(cut), 20)
  {
    FramedOnce(TRAP[..3], 10, TRAP[5..], 4);
    var cut := Framed(TRAP[..3], 10, TRAP[5..], [4]);
    assert cut[15..20] == [0x16, 3, 1, 0, 0];
    assert cut[..20] == cut;
    hide Framed, Sum, MergesBack, LoopEnds;
    SplitThenMerge(TRAP, cut, [4], 20);
    MergeNeverEnds(TRAP, cut, [4], 20);
  }
}
