// The order behind the prefix index (byedpi/mpool.c, bit_cmp, byte_cmp and host_cmp).
//
// All three comparators answer 0 not only for equal keys but for keys one of which is a prefix
// of the other.  `PrefixCmp` is that comparison on plain sequences, and each comparator is
// related to it by a code: the bits of the key, its length followed by its bytes, or its
// characters from last to first followed by a '.'.  What they say of unrelated keys is the plain
// lexicographic order, `Lex`, which is total.

module PrefixOrder {
  import opened Common

  // Compare up to the end of the shorter sequence.
  function PrefixCmp(a: seq<nat>, b: seq<nat>): int {
    if a == [] || b == [] then 0
    else if a[0] < b[0] then -1
    else if a[0] > b[0] then 1
    else PrefixCmp(a[1..], b[1..])
  }

  predicate Related(a: seq<nat>, b: seq<nat>) {
    a <= b || b <= a
  }

  // 0 means: one is a prefix of the other.
  lemma {:induction false} ZeroIsRelated(a: seq<nat>, b: seq<nat>)
    ensures PrefixCmp(a, b) == 0 <==> Related(a, b)
  {
    if a != [] && b != [] {
      ZeroIsRelated(a[1..], b[1..]);
      if a[0] == b[0] {
        assert a == [a[0]] + a[1..] && b == [b[0]] + b[1..];
      }
    }
  }

  lemma {:induction false} Antisymmetric(a: seq<nat>, b: seq<nat>)
    ensures PrefixCmp(a, b) == -PrefixCmp(b, a)
  {
    if a != [] && b != [] { Antisymmetric(a[1..], b[1..]); }
  }

  // Being strictly below is transitive, although being related is not.
  lemma {:induction false} Transitive(a: seq<nat>, b: seq<nat>, c: seq<nat>)
    requires PrefixCmp(a, b) < 0 && PrefixCmp(b, c) < 0
    ensures PrefixCmp(a, c) < 0
  {
    if a[0] == b[0] && b[0] == c[0] { Transitive(a[1..], b[1..], c[1..]); }
  }

  // Everything that extends a key sorts with it.
  lemma {:induction false} ExtensionSortsAlike(a: seq<nat>, b: seq<nat>, x: seq<nat>)
    requires PrefixCmp(a, b) != 0
    ensures PrefixCmp(a + x, b) == PrefixCmp(a, b)
  {
    assert (a + x)[0] == a[0];
    if a[0] == b[0] {
      assert (a + x)[1..] == a[1..] + x;
      ExtensionSortsAlike(a[1..], b[1..], x);
    }
  }

  lemma {:induction false} CommonFront(u: seq<nat>, v: seq<nat>, x: seq<nat>, y: seq<nat>)
    requires |u| == |v|
    ensures PrefixCmp(u + x, v + y) == if u == v then PrefixCmp(x, y) else PrefixCmp(u, v)
  {
    if u == [] {
      assert u + x == x && v + y == y;
    } else {
      assert (u + x)[1..] == u[1..] + x && (v + y)[1..] == v[1..] + y;
      CommonFront(u[1..], v[1..], x, y);
      assert u == [u[0]] + u[1..] && v == [v[0]] + v[1..];
    }
  }

  // The lexicographic order, in which a prefix comes before what extends it.
  function Lex(a: seq<nat>, b: seq<nat>): int {
    if a == [] then (if b == [] then 0 else -1)
    else if b == [] then 1
    else if a[0] != b[0] then (if a[0] < b[0] then -1 else 1)
    else Lex(a[1..], b[1..])
  }

  lemma {:induction false} LexFlips(a: seq<nat>, b: seq<nat>)
    ensures Lex(a, b) == -Lex(b, a)
  {
    if a != [] && b != [] { LexFlips(a[1..], b[1..]); }
  }

  lemma {:induction false} LexTransitive(a: seq<nat>, b: seq<nat>, c: seq<nat>)
    requires Lex(a, b) < 0 && Lex(b, c) < 0
    ensures Lex(a, c) < 0
  {
    if a != [] && b != [] && c != [] && a[0] == b[0] == c[0] { LexTransitive(a[1..], b[1..], c[1..]); }
  }

  lemma {:induction false} LexUnlessRelated(a: seq<nat>, b: seq<nat>)
    ensures PrefixCmp(a, b) == if Related(a, b) then 0 else Lex(a, b)
  {
    ZeroIsRelated(a, b);
    if a != [] && b != [] && a[0] == b[0] {
      LexUnlessRelated(a[1..], b[1..]);
      assert a == [a[0]] + a[1..] && b == [b[0]] + b[1..];
    }
  }

  // Between a sequence and one that extends it there are only others that extend it.
  lemma {:induction false} LexBetween(a: seq<nat>, b: seq<nat>, x: seq<nat>)
    requires Lex(a, b) < 0 && Lex(b, a + x) < 0 && x != []
    ensures |a| < |b| && b[..|a|] == a && b[|a|] <= x[0]
  {
    if a == [] {
      assert a + x == x;
    } else {
      assert (a + x)[1..] == a[1..] + x && (a + x)[0] == a[0];
      LexBetween(a[1..], b[1..], x);
      assert b[..|a|] == [b[0]] + b[1..][..|a| - 1];
    }
  }

  lemma {:induction false} LexFront(a: seq<nat>, x: seq<nat>, y: seq<nat>)
    ensures Lex(a + x, a + y) == Lex(x, y)
  {
    if a == [] {
      assert a + x == x && a + y == y;
    } else {
      assert (a + x)[1..] == a[1..] + x && (a + y)[1..] == a[1..] + y;
      LexFront(a[1..], x, y);
    }
  }

  // ---------------------------------------------------------------------------------------
  // Keys and comparators
  // ---------------------------------------------------------------------------------------

  datatype Kind = Bytes | Bits | Host  // CMP_BYTES, CMP_BITS, CMP_HOST

  // A key: `len` counts bits for Bits and bytes otherwise.
  datatype Key = Key(len: nat, data: seq<byte>)

  // The key's data reaches as far as its length says.
  predicate Backed(kind: Kind, k: Key) {
    match kind
    case Bits => k.len <= 8 * |k.data|
    case _ => k.len <= |k.data|
  }

  function Sign(a: int, b: int): int {
    if a < b then -1 else if a > b then 1 else 0
  }

  // memcmp over n bytes; of its result only the sign is used.
  function MemCmp(a: seq<byte>, b: seq<byte>, n: nat): int
    requires n <= |a| && n <= |b|
  {
    if n == 0 then 0 else if a[0] != b[0] then Sign(a[0], b[0]) else MemCmp(a[1..], b[1..], n - 1)
  }

  // c >> n for an unsigned char
  function Shr(c: nat, n: nat): nat {
    if n == 0 then c else Shr(c, n - 1) / 2
  }

  function BitCmp(p: Key, q: Key): int
    requires Backed(Bits, p) && Backed(Bits, q)
  {
    var len := if q.len < p.len then q.len else p.len;
    var df, bytes := len % 8, len / 8;
    var cmp := MemCmp(p.data, q.data, bytes);
    if cmp != 0 || df == 0 then cmp
    else
      var c1, c2 := Shr(p.data[bytes], 8 - df), Shr(q.data[bytes], 8 - df);
      if c1 != c2 then (if c1 < c2 then -1 else 1) else 0
  }

  function ByteCmp(p: Key, q: Key): int
    requires Backed(Bytes, p) && Backed(Bytes, q)
  {
    if p.len != q.len then (if p.len < q.len then -1 else 1)
    else MemCmp(p.data, q.data, p.len)
  }

  const DOT: byte := 46

  // host_cmp, on the characters left to compare: from the back, and when one name runs out the
  // next character of the other decides.
  function HostOrder(p: seq<byte>, q: seq<byte>): int
    decreases |p|
  {
    if p == [] && q == [] then 0
    else if p == [] then (if q[|q| - 1] == DOT then 0 else -1)
    else if q == [] then (if p[|p| - 1] == DOT then 0 else 1)
    else if p[|p| - 1] != q[|q| - 1] then Sign(p[|p| - 1], q[|q| - 1])
    else HostOrder(p[..|p| - 1], q[..|q| - 1])
  }

  method HostCmp(p: Key, q: Key) returns (c: int)
    requires Backed(Host, p) && Backed(Host, q)
    ensures c == HostOrder(p.data[..p.len], q.data[..q.len])
  {
    var len := if q.len < p.len then q.len else p.len;
    var pd, qd := p.len, q.len;
    while len > 0
      invariant 0 <= pd <= p.len && 0 <= qd <= q.len
      invariant len == Min(pd, qd) && p.len - pd == q.len - qd
      invariant HostOrder(p.data[..p.len], q.data[..q.len]) == HostOrder(p.data[..pd], q.data[..qd])
    {
      len := len - 1;
      pd, qd := pd - 1, qd - 1;
      assert p.data[..pd + 1][..pd] == p.data[..pd] && q.data[..qd + 1][..qd] == q.data[..qd];
      if p.data[pd] != q.data[qd] {
        return if p.data[pd] < q.data[qd] then -1 else 1;
      }
    }
    if p.len == q.len || (if p.len > q.len then p.data[pd - 1] else q.data[qd - 1]) == DOT {
      return 0;
    }
    return if p.len > q.len then 1 else -1;
  }

  // scmp
  function Compare(kind: Kind, p: Key, q: Key): int
    requires Backed(kind, p) && Backed(kind, q)
  {
    match kind
    case Bits => BitCmp(p, q)
    case Host => HostOrder(p.data[..p.len], q.data[..q.len])
    case Bytes => ByteCmp(p, q)
  }

  method Scmp(kind: Kind, p: Key, q: Key) returns (c: int)
    requires Backed(kind, p) && Backed(kind, q)
    ensures c == Compare(kind, p, q)
  {
    match kind
    case Bits => c := BitCmp(p, q);
    case Host => c := HostCmp(p, q);
    case Bytes => c := ByteCmp(p, q);
  }

  // ---------------------------------------------------------------------------------------
  // Codes
  // ---------------------------------------------------------------------------------------

  // The first `len` bits, most significant bit of each byte first.
  function BitsOf(data: seq<byte>, len: nat): (r: seq<nat>)
    requires len <= 8 * |data|
    ensures |r| == len
  {
    seq(len, i requires 0 <= i < len => Shr(data[i / 8], 7 - i % 8) % 2)
  }

  function Reverse(s: seq<nat>): (r: seq<nat>)
    ensures |r| == |s|
  {
    if s == [] then [] else [s[|s| - 1]] + Reverse(s[..|s| - 1])
  }

  function Code(kind: Kind, k: Key): seq<nat>
    requires Backed(kind, k)
  {
    match kind
    case Bits => BitsOf(k.data, k.len)
    case Host => Reverse(k.data[..k.len]) + [DOT as nat]
    case Bytes => [k.len] + k.data[..k.len]
  }

  // The code without that '.': what unrelated keys are ordered by.
  function Spine(kind: Kind, k: Key): seq<nat>
    requires Backed(kind, k)
  {
    match kind
    case Bits => BitsOf(k.data, k.len)
    case Host => Reverse(k.data[..k.len])
    case Bytes => [k.len] + k.data[..k.len]
  }

  // The total order behind a comparator.
  function Rank(kind: Kind, p: Key, q: Key): int
    requires Backed(kind, p) && Backed(kind, q)
  {
    Lex(Spine(kind, p), Spine(kind, q))
  }

  // A host name without characters that sort below '.'.
  predicate Orderly(kind: Kind, k: Key) {
    Backed(kind, k) && (kind == Host ==> forall i :: 0 <= i < k.len ==> k.data[i] >= DOT)
  }

  // ---------------------------------------------------------------------------------------
  // bit_cmp is PrefixCmp on bits
  // ---------------------------------------------------------------------------------------

  // Comparing the n leading bits of two bytes is comparing the bytes shifted down to n bits.
  lemma {:induction false} TopBits(a: byte, b: byte, n: nat)
    requires n <= 8
    ensures PrefixCmp(BitsOf([a], n), BitsOf([b], n)) == Sign(Shr(a, 8 - n), Shr(b, 8 - n))
    ensures BitsOf([a], n) == BitsOf([b], n) <==> Shr(a, 8 - n) == Shr(b, 8 - n)
  {
    if n == 0 {
      ShiftOut(a);
      ShiftOut(b);
    } else {
      hide BitsOf, Shr;
      TopBits(a, b, n - 1);
      NextBit(a, n);
      NextBit(b, n);
      var x, y := Shr(a, 8 - n) % 2, Shr(b, 8 - n) % 2;
      CommonFront(BitsOf([a], n - 1), BitsOf([b], n - 1), [x], [y]);
      LastEqual(BitsOf([a], n - 1), BitsOf([b], n - 1), x, y);
    }
  }

  lemma NextBit(a: byte, n: nat)
    requires 0 < n <= 8
    ensures var x := Shr(a, 8 - n) % 2;
      BitsOf([a], n) == BitsOf([a], n - 1) + [x] && Shr(a, 8 - n) == 2 * Shr(a, 9 - n) + x
  {
    assert Shr(a, 9 - n) == Shr(a, 8 - n) / 2;
  }

  lemma LastEqual(u: seq<nat>, v: seq<nat>, x: nat, y: nat)
    ensures u + [x] == v + [y] <==> u == v && x == y
    ensures PrefixCmp([x], [y]) == Sign(x, y)
  {
    if u + [x] == v + [y] {
      assert u == (u + [x])[..|u|] && v == (v + [y])[..|v|];
      assert (u + [x])[|u|] == x && (v + [y])[|v|] == y;
    }
  }

  lemma ShiftOut(c: byte)
    ensures Shr(c, 8) == 0
  {
    assert Shr(c, 1) < 128;
    assert Shr(c, 2) < 64;
    assert Shr(c, 3) < 32;
    assert Shr(c, 4) < 16;
    assert Shr(c, 5) < 8;
    assert Shr(c, 6) < 4;
    assert Shr(c, 7) < 2;
  }

  // Take the first byte off.
  lemma BitsSplit(data: seq<byte>, len: nat)
    requires 8 <= len <= 8 * |data|
    ensures BitsOf(data, len) == BitsOf([data[0]], 8) + BitsOf(data[1..], len - 8)
  {
    var d := data[1..];
    forall i | 8 <= i < len ensures data[i / 8] == d[(i - 8) / 8] && i % 8 == (i - 8) % 8 {
      assert (i - 8) / 8 == i / 8 - 1;
    }
  }

  // Bits behind the compared length do not matter.
  lemma LongerBits(data: seq<byte>, len: nat, more: nat)
    requires len <= more <= 8 * |data|
    ensures BitsOf(data, len) == BitsOf(data, more)[..len]
  {
  }

  lemma {:induction false} CutToCommon(a: seq<nat>, b: seq<nat>)
    ensures PrefixCmp(a, b) == PrefixCmp(a[..Min(|a|, |b|)], b[..Min(|a|, |b|)])
  {
    var n := Min(|a|, |b|);
    if n > 0 {
      CutToCommon(a[1..], b[1..]);
      assert a[..n][1..] == a[1..][..n - 1] && b[..n][1..] == b[1..][..n - 1];
    }
  }

  // bit_cmp on `len` bits of both.
  lemma {:induction false} EqualBits(p: seq<byte>, q: seq<byte>, len: nat)
    requires len <= 8 * |p| && len <= 8 * |q|
    ensures PrefixCmp(BitsOf(p, len), BitsOf(q, len)) == BitCmp(Key(len, p), Key(len, q))
    decreases len
  {
    if len >= 8 {
      EqualBits(p[1..], q[1..], len - 8);
      OneByteMore(p, q, len);
    } else if len > 0 {
      TopBits(p[0], q[0], len);
      assert BitsOf(p, len) == BitsOf([p[0]], len) && BitsOf(q, len) == BitsOf([q[0]], len);
    }
  }

  lemma OneByteMore(p: seq<byte>, q: seq<byte>, len: nat)
    requires 8 <= len <= 8 * |p| && len <= 8 * |q|
    requires PrefixCmp(BitsOf(p[1..], len - 8), BitsOf(q[1..], len - 8))
      == BitCmp(Key(len - 8, p[1..]), Key(len - 8, q[1..]))
    ensures PrefixCmp(BitsOf(p, len), BitsOf(q, len)) == BitCmp(Key(len, p), Key(len, q))
  {
    hide BitsOf, PrefixCmp;
    BitsSplit(p, len);
    BitsSplit(q, len);
    TopBits(p[0], q[0], 8);
    var u, v := BitsOf([p[0]], 8), BitsOf([q[0]], 8);
    CommonFront(u, v, BitsOf(p[1..], len - 8), BitsOf(q[1..], len - 8));
    assert (len - 8) / 8 == len / 8 - 1 && (len - 8) % 8 == len % 8;
  }

  lemma BitCmpIsPrefixCmp(p: Key, q: Key)
    requires Backed(Bits, p) && Backed(Bits, q)
    ensures BitCmp(p, q) == PrefixCmp(Code(Bits, p), Code(Bits, q))
  {
    var n := Min(p.len, q.len);
    EqualBits(p.data, q.data, n);
    CutToCommon(BitsOf(p.data, p.len), BitsOf(q.data, q.len));
    LongerBits(p.data, n, p.len);
    LongerBits(q.data, n, q.len);
  }

  // ---------------------------------------------------------------------------------------
  // byte_cmp and host_cmp
  // ---------------------------------------------------------------------------------------

  lemma {:induction false} MemCmpIsPrefixCmp(a: seq<byte>, b: seq<byte>, n: nat)
    requires n <= |a| && n <= |b|
    ensures MemCmp(a, b, n) == PrefixCmp(a[..n], b[..n])
  {
    if n > 0 {
      MemCmpIsPrefixCmp(a[1..], b[1..], n - 1);
      assert a[..n][1..] == a[1..][..n - 1] && b[..n][1..] == b[1..][..n - 1];
    }
  }

  lemma ByteCmpIsPrefixCmp(p: Key, q: Key)
    requires Backed(Bytes, p) && Backed(Bytes, q)
    ensures ByteCmp(p, q) == PrefixCmp(Code(Bytes, p), Code(Bytes, q))
  {
    var a: seq<nat>, b: seq<nat> := p.data[..p.len], q.data[..q.len];
    CommonFront([p.len], [q.len], a, b);
    if p.len == q.len { MemCmpIsPrefixCmp(p.data, q.data, p.len); }
  }

  // The names agree from the back until one runs out, and what comes next in the other sorts
  // below '.'.
  predicate Disorderly(p: seq<byte>, q: seq<byte>)
    decreases |p|
  {
    if p == [] || q == [] then
      (p != [] && p[|p| - 1] < DOT) || (q != [] && q[|q| - 1] < DOT)
    else p[|p| - 1] == q[|q| - 1] && Disorderly(p[..|p| - 1], q[..|q| - 1])
  }

  // host_cmp is PrefixCmp on the reversed names with a trailing '.' exactly when the names are
  // not disorderly.
  lemma {:induction false} HostOrderExactly(p: seq<byte>, q: seq<byte>)
    ensures HostOrder(p, q) == PrefixCmp(Reverse(p) + [DOT as nat], Reverse(q) + [DOT as nat])
      <==> !Disorderly(p, q)
    decreases |p|
  {
    var u, v := Reverse(p) + [DOT as nat], Reverse(q) + [DOT as nat];
    if p != [] && q != [] {
      HostOrderExactly(p[..|p| - 1], q[..|q| - 1]);
      assert u[1..] == Reverse(p[..|p| - 1]) + [DOT as nat];
      assert v[1..] == Reverse(q[..|q| - 1]) + [DOT as nat];
    } else {
      assert PrefixCmp(u[1..], v[1..]) == 0 by { if p == [] { assert u[1..] == []; } else { assert v[1..] == []; } }
    }
  }

  lemma {:induction false} HostOrderIsLex(p: seq<byte>, q: seq<byte>)
    ensures HostOrder(p, q) ==
      if Related(Reverse(p) + [DOT as nat], Reverse(q) + [DOT as nat]) then 0 else Lex(Reverse(p), Reverse(q))
    decreases |p|
  {
    var u, v := Reverse(p) + [DOT as nat], Reverse(q) + [DOT as nat];
    if p != [] && q != [] {
      HostOrderIsLex(p[..|p| - 1], q[..|q| - 1]);
      assert u == [u[0]] + (Reverse(p[..|p| - 1]) + [DOT as nat]);
      assert v == [v[0]] + (Reverse(q[..|q| - 1]) + [DOT as nat]);
      RelatedTails(u[0], u[1..], v[0], v[1..]);
    } else if p == [] && q != [] {
      assert v == [v[0]] + v[1..] && v[0] == q[|q| - 1];
    } else if q == [] && p != [] {
      assert u == [u[0]] + u[1..] && u[0] == p[|p| - 1];
    }
  }

  lemma RelatedTails(x: nat, a: seq<nat>, y: nat, b: seq<nat>)
    ensures Related([x] + a, [y] + b) <==> x == y && Related(a, b)
  {
    var u, v := [x] + a, [y] + b;
    assert u[0] == x && v[0] == y && u[1..] == a && v[1..] == b;
    assert u <= v ==> a <= b by { if u <= v { assert a == v[..|u|][1..] == b[..|a|]; } }
    assert v <= u ==> b <= a by { if v <= u { assert b == u[..|v|][1..] == a[..|b|]; } }
  }

  // Every comparator answers 0 for keys whose codes are prefixes of one another, and otherwise
  // what the total order says.
  lemma ComparesByRank(kind: Kind, p: Key, q: Key)
    requires Backed(kind, p) && Backed(kind, q)
    ensures Compare(kind, p, q) == if Related(Code(kind, p), Code(kind, q)) then 0 else Rank(kind, p, q)
  {
    LexUnlessRelated(Code(kind, p), Code(kind, q));
    match kind
    case Bits => BitCmpIsPrefixCmp(p, q);
    case Bytes => ByteCmpIsPrefixCmp(p, q);
    case Host => HostOrderIsLex(p.data[..p.len], q.data[..q.len]);
  }

  // On addresses and byte strings it is the prefix order of the codes; on host names exactly
  // unless they are disorderly.
  lemma CompareIsPrefixCmp(kind: Kind, p: Key, q: Key)
    requires Backed(kind, p) && Backed(kind, q)
    ensures Compare(kind, p, q) == PrefixCmp(Code(kind, p), Code(kind, q))
      <==> kind != Host || !Disorderly(p.data[..p.len], q.data[..q.len])
  {
    match kind
    case Bits => BitCmpIsPrefixCmp(p, q);
    case Bytes => ByteCmpIsPrefixCmp(p, q);
    case Host => HostOrderExactly(p.data[..p.len], q.data[..q.len]);
  }

  // ---------------------------------------------------------------------------------------
  // What being related means
  // ---------------------------------------------------------------------------------------

  // One host name is the other or lies below it in the domain tree.
  predicate IsSubdomain(sub: seq<byte>, dom: seq<byte>) {
    sub == dom || (|sub| > |dom| && sub[|sub| - |dom|..] == dom && sub[|sub| - |dom| - 1] == DOT)
  }

  // host_cmp answers 0 exactly for a domain and its sub-domains, whatever characters they have.
  lemma {:induction false} HostZeroIsSubdomain(p: seq<byte>, q: seq<byte>)
    ensures HostOrder(p, q) == 0 <==> IsSubdomain(p, q) || IsSubdomain(q, p)
    decreases |p|
  {
    if p == [] {
      assert q[|q|..] == [];
    } else if q == [] {
      assert p[|p|..] == [];
    } else {
      var m, n := |p| - 1, |q| - 1;
      HostZeroIsSubdomain(p[..m], q[..n]);
      DropLast(p, q);
      DropLast(q, p);
    }
  }

  lemma DropLast(p: seq<byte>, q: seq<byte>)
    requires p != [] && q != []
    ensures IsSubdomain(p, q) <==> p[|p| - 1] == q[|q| - 1] && IsSubdomain(p[..|p| - 1], q[..|q| - 1])
  {
    var m, n := |p| - 1, |q| - 1;
    assert p == p[..m] + [p[m]] && q == q[..n] + [q[n]];
    if |p| > |q| {
      var k := |p| - |q|;
      assert p[k..] == p[..m][k..] + [p[m]];
    }
  }

  // A name ends like another one exactly when, reversed, it begins like it.
  lemma {:induction false} ReverseCat(a: seq<nat>, b: seq<nat>)
    ensures Reverse(a + b) == Reverse(b) + Reverse(a)
    decreases |b|
  {
    if b == [] {
      assert a + b == a;
    } else {
      hide Reverse;
      var n := |b| - 1;
      assert b == b[..n] + [b[n]];
      Regroup(a, b[..n], [b[n]]);
      ReverseCat(a, b[..n]);
      ReverseSnoc(a + b[..n], b[n]);
      ReverseSnoc(b[..n], b[n]);
      Regroup([b[n]], Reverse(b[..n]), Reverse(a));
    }
  }

  lemma ReverseSnoc(a: seq<nat>, x: nat)
    ensures Reverse(a + [x]) == [x] + Reverse(a)
  {
    assert (a + [x])[..|a|] == a;
  }

  lemma {:induction false} ReverseOnce(a: seq<nat>, b: seq<nat>)
    requires Reverse(a) == Reverse(b)
    ensures a == b
  {
    if a != [] {
      assert Reverse(a)[1..] == Reverse(a[..|a| - 1]) && Reverse(b)[1..] == Reverse(b[..|b| - 1]);
      ReverseOnce(a[..|a| - 1], b[..|b| - 1]);
      assert a == a[..|a| - 1] + [a[|a| - 1]] && b == b[..|b| - 1] + [b[|b| - 1]];
    }
  }

  lemma EndsLike(y: seq<nat>, x: seq<nat>)
    requires |x| < |y|
    ensures Reverse(y)[..|x|] == Reverse(x) <==> y[|y| - |x|..] == x
    ensures Reverse(y)[|x|] == y[|y| - |x| - 1]
  {
    var k := |y| - |x|;
    var front, back := y[..k], y[k..];
    assert y == front + back;
    ReverseCat(front, back);
    assert Reverse(front)[0] == front[k - 1];
    assert Reverse(y)[..|x|] == Reverse(back);
    if Reverse(back) == Reverse(x) { ReverseOnce(back, x); }
  }
}
