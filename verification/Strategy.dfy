// Choosing a strategy group for a client, and reconnecting with another one (byedpi/extend.c).
//
// The groups (`struct desync_params`) are cells of one array, linked into a list in order of
// preference; pointers into the array are indices.  Bit masks are sets of bit numbers.  What a
// group's address, protocol and host filters say about a destination is an input of each call.

module Strategy {
  import opened Common

  // Bits of auto_level.
  const AUTO_ONRECONN: nat := 0
  const AUTO_NORECONN: nat := 1
  const AUTO_SORT: nat := 2

  datatype Cell = Cell(
    bit: nat,
    detect: set<nat>,
    autoLevel: set<nat>,
    pri: int,
    failCount: int,
    next: Option<nat>,
    prev: Option<nat>)

  // ---------------------------------------------------------------------------------------
  // The list
  // ---------------------------------------------------------------------------------------

  ghost predicate InCells(cells: seq<Cell>, s: seq<nat>) {
    forall i :: 0 <= i < |s| ==> s[i] < |cells|
  }

  ghost predicate NodeOk(cells: seq<Cell>, order: seq<nat>, i: nat)
    requires i < |order|
  {
    && order[i] < |cells|
    && cells[order[i]].next == At(order, i + 1)
    && cells[order[i]].prev == At(order, i - 1)
  }

  // The links spell out `order` in both directions.
  ghost predicate Linked(cells: seq<Cell>, head: Option<nat>, order: seq<nat>) {
    && Distinct(order) && InCells(cells, order)
    && head == At(order, 0)
    && forall i :: 0 <= i < |order| ==> NodeOk(cells, order, i)
  }

  // Each group has a bit of its own.
  ghost predicate OwnBits(cells: seq<Cell>, order: seq<nat>)
    requires InCells(cells, order)
  {
    forall i, j :: 0 <= i < j < |order| ==> cells[order[i]].bit != cells[order[j]].bit
  }

  ghost function Bits(cells: seq<Cell>, s: seq<nat>): (r: set<nat>)
    requires InCells(cells, s)
  {
    set i | 0 <= i < |s| :: cells[s[i]].bit
  }

  ghost predicate GroupsOk(cells: seq<Cell>, head: Option<nat>, order: seq<nat>) {
    Linked(cells, head, order) && OwnBits(cells, order)
  }

  // ---------------------------------------------------------------------------------------
  // Exchanging two groups
  // ---------------------------------------------------------------------------------------

  function Exchanged(order: seq<nat>, i: nat, j: nat): seq<nat>
    requires i < |order| && j < |order|
  {
    order[i := order[j]][j := order[i]]
  }

  // The links after swop_groups, cell by cell: `c` has gone to the place of `n`, which stood
  // behind it, and `n` to the place of `c`.
  function NextAfter(cells: seq<Cell>, c: nat, n: nat, e: nat): Option<nat>
    requires c < |cells| && n < |cells| && e < |cells|
  {
    if e == c then cells[n].next
    else if e == n then (if cells[c].next == Some(n) then Some(c) else cells[c].next)
    else if cells[c].prev == Some(e) then Some(n)
    else if cells[n].prev == Some(e) then Some(c)
    else cells[e].next
  }

  function PrevAfter(cells: seq<Cell>, c: nat, n: nat, e: nat): Option<nat>
    requires c < |cells| && n < |cells| && e < |cells|
  {
    if e == n then cells[c].prev
    else if e == c then (if cells[c].next == Some(n) then Some(n) else cells[n].prev)
    else if cells[n].next == Some(e) then Some(c)
    else if cells[c].next == Some(e) then Some(n)
    else cells[e].prev
  }

  // A cell after swop_groups: detect and auto_level stay with the places in the list, and all
  // else stays with the group.
  function CellAfter(cells: seq<Cell>, c: nat, n: nat, e: nat): Cell
    requires c < |cells| && n < |cells| && e < |cells|
  {
    var from := if e == c then n else if e == n then c else e;
    cells[e].(next := NextAfter(cells, c, n, e), prev := PrevAfter(cells, c, n, e),
              detect := cells[from].detect, autoLevel := cells[from].autoLevel)
  }

  ghost predicate SwoppedCells(a: seq<Cell>, b: seq<Cell>, c: nat, n: nat) {
    && c < |a| && n < |a| && |b| == |a|
    && forall e :: 0 <= e < |a| ==> b[e] == CellAfter(a, c, n, e)
  }

  lemma ExchangedIs(order: seq<nat>, i: nat, j: nat)
    requires i < j < |order| && Distinct(order)
    ensures var r := Exchanged(order, i, j);
      && Distinct(r) && |r| == |order| && r[i] == order[j] && r[j] == order[i]
      && (forall k :: 0 <= k < |order| && k != i && k != j ==> r[k] == order[k])
      && (forall x :: x in r <==> x in order)
  {
    var r := Exchanged(order, i, j);
    forall x | x in order ensures x in r {
      var k :| 0 <= k < |order| && order[k] == x;
      assert r[if k == i then j else if k == j then i else k] == x;
    }
  }

  // What stands where in the list.
  lemma NeighboursOf(cells: seq<Cell>, head: Option<nat>, order: seq<nat>, i: nat)
    requires Linked(cells, head, order) && i < |order|
    ensures order[i] < |cells|
    ensures cells[order[i]].next == At(order, i + 1) && cells[order[i]].prev == At(order, i - 1)
    ensures i > 0 ==> order[i - 1] < |cells| && order[i - 1] != order[i]
    ensures i + 1 < |order| ==> order[i + 1] < |cells| && order[i + 1] != order[i]
    ensures i > 0 && i + 1 < |order| ==> order[i - 1] != order[i + 1]
  {
    assert NodeOk(cells, order, i);
  }

  lemma DistinctAt(order: seq<nat>, i: nat, k: int)
    requires Distinct(order) && i < |order|
    ensures At(order, k) == Some(order[i]) <==> k == i
  {
  }

  // The links of the group at place k, after the groups at places i < j have changed places.
  lemma SwoppedNode(a: seq<Cell>, b: seq<Cell>, head: Option<nat>, order: seq<nat>, i: nat, j: nat, k: nat)
    requires Linked(a, head, order) && i < j < |order| && k < |order|
    requires SwoppedCells(a, b, order[i], order[j])
    ensures NodeOk(b, Exchanged(order, i, j), k)
  {
    hide Exchanged, Linked, NodeOk;
    LinkedFacts(a, head, order);
    var r := Exchanged(order, i, j);
    ExchangedIs(order, i, j);
    NeighboursOf(a, head, order, i);
    NeighboursOf(a, head, order, j);
    NeighboursOf(a, head, order, k);
    DistinctAt(order, k, i - 1);
    DistinctAt(order, k, j - 1);
    DistinctAt(order, k, i + 1);
    DistinctAt(order, k, j + 1);
    DistinctAt(order, j, i + 1);
    DistinctAt(order, i, k);
    DistinctAt(order, j, k);
    DistinctAt(order, i, j);
    hide Distinct;
    assert b[order[k]] == CellAfter(a, order[i], order[j], order[k]);
    assert b[r[k]] == CellAfter(a, order[i], order[j], r[k]);
    NodeFrom(b, r, k);
  }

  lemma LinkedFacts(cells: seq<Cell>, head: Option<nat>, order: seq<nat>)
    requires Linked(cells, head, order)
    ensures Distinct(order) && InCells(cells, order) && head == At(order, 0)
  {
  }

  lemma NodeFrom(cells: seq<Cell>, order: seq<nat>, i: nat)
    requires i < |order| && order[i] < |cells|
    requires cells[order[i]].next == At(order, i + 1) && cells[order[i]].prev == At(order, i - 1)
    ensures NodeOk(cells, order, i)
  {
  }

  // Exchanging a group with one behind it: the list is well formed again, with exactly these two
  // in each other's place, and what each place detects and allows has not changed.
  lemma SwopExchanges(a: seq<Cell>, b: seq<Cell>, head: Option<nat>, order: seq<nat>, i: nat, j: nat)
    requires GroupsOk(a, head, order) && i < j < |order|
    requires SwoppedCells(a, b, order[i], order[j])
    ensures GroupsOk(b, if i == 0 then Some(order[j]) else head, Exchanged(order, i, j))
    ensures forall k :: 0 <= k < |order| ==> var r := Exchanged(order, i, j)[k];
      r < |b| && b[r].detect == a[order[k]].detect && b[r].autoLevel == a[order[k]].autoLevel
    ensures forall e :: 0 <= e < |a| ==>
      b[e].bit == a[e].bit && b[e].pri == a[e].pri && b[e].failCount == a[e].failCount
    ensures Bits(b, Exchanged(order, i, j)) == Bits(a, order)
  {
    LinkedFacts(a, head, order);
    hide Linked, NodeOk, NextAfter, PrevAfter;
    var r := Exchanged(order, i, j);
    ExchangedIs(order, i, j);
    forall k | 0 <= k < |order| ensures NodeOk(b, r, k) && r[k] < |b| {
      SwoppedNode(a, b, head, order, i, j, k);
    }
    SwoppedPlaces(a, b, order, i, j);
    LinkedFrom(b, if i == 0 then Some(order[j]) else head, r);
  }

  lemma LinkedFrom(cells: seq<Cell>, head: Option<nat>, order: seq<nat>)
    requires Distinct(order) && head == At(order, 0) && InCells(cells, order)
    requires forall i :: 0 <= i < |order| ==> NodeOk(cells, order, i)
    ensures Linked(cells, head, order)
  {
  }

  lemma SwoppedPlaces(a: seq<Cell>, b: seq<Cell>, order: seq<nat>, i: nat, j: nat)
    requires Distinct(order) && InCells(a, order) && OwnBits(a, order) && i < j < |order|
    requires SwoppedCells(a, b, order[i], order[j])
    ensures var r := Exchanged(order, i, j);
      && InCells(b, r) && OwnBits(b, r) && Bits(b, r) == Bits(a, order)
      && forall k :: 0 <= k < |order| ==>
        r[k] < |b| && b[r[k]].detect == a[order[k]].detect && b[r[k]].autoLevel == a[order[k]].autoLevel
  {
    hide NextAfter, PrevAfter, Exchanged;
    var r := Exchanged(order, i, j);
    ExchangedIs(order, i, j);
    assert forall e :: 0 <= e < |a| ==> b[e].bit == a[e].bit;
    forall k | 0 <= k < |order|
      ensures r[k] < |b| && b[r[k]].detect == a[order[k]].detect && b[r[k]].autoLevel == a[order[k]].autoLevel
    {
      DistinctAt(order, i, k);
      DistinctAt(order, j, k);
      assert b[r[k]] == CellAfter(a, order[i], order[j], r[k]);
    }
    SameBits(a, b, order, r, i, j);
  }

  lemma SameBits(a: seq<Cell>, b: seq<Cell>, order: seq<nat>, r: seq<nat>, i: nat, j: nat)
    requires InCells(a, order) && OwnBits(a, order) && i < j < |order| == |r| && InCells(b, r)
    requires |a| == |b| && forall e :: 0 <= e < |a| ==> b[e].bit == a[e].bit
    requires r[i] == order[j] && r[j] == order[i]
    requires forall k :: 0 <= k < |order| && k != i && k != j ==> r[k] == order[k]
    ensures OwnBits(b, r) && Bits(b, r) == Bits(a, order)
  {
    forall x | x in Bits(a, order) ensures x in Bits(b, r) {
      var k :| 0 <= k < |order| && a[order[k]].bit == x;
      assert b[r[if k == i then j else if k == j then i else k]].bit == x;
    }
    forall x | x in Bits(b, r) ensures x in Bits(a, order) {
      var k :| 0 <= k < |order| && b[r[k]].bit == x;
      assert a[order[if k == i then j else if k == j then i else k]].bit == x;
    }
  }

  // ---------------------------------------------------------------------------------------
  // The walk of on_trigger
  // ---------------------------------------------------------------------------------------

  predicate Suits(c: Cell, mask: set<nat>, kind: set<nat>, canReconn: bool) {
    && c.bit !in mask
    && (c.detect == {} || c.detect * kind != {})
    && (AUTO_ONRECONN in c.autoLevel ==> canReconn)
  }

  datatype Walked = Walked(next: Option<nat>, mask: set<nat>, unchecked: set<nat>)

  // From the first of `s` on: stop at a group that detects nothing once every ruled-out group
  // has been passed, take a group that suits, and rule out the others.
  function Walk(cells: seq<Cell>, s: seq<nat>, mask: set<nat>, unchecked: set<nat>, kind: set<nat>,
    canReconn: bool): Walked
    requires forall i :: 0 <= i < |s| ==> s[i] < |cells|
  {
    if s == [] then Walked(None, mask, unchecked)
    else
      var c := cells[s[0]];
      if unchecked == {} && c.detect == {} then Walked(None, mask, unchecked)
      else if Suits(c, mask, kind, canReconn) then Walked(Some(s[0]), mask, unchecked)
      else Walk(cells, s[1..], mask + {c.bit}, unchecked - {c.bit}, kind, canReconn)
  }

  // The walk passes the first `p` groups of `s`, none of which suits, and rules out exactly them.
  ghost predicate Passed(cells: seq<Cell>, s: seq<nat>, mask: set<nat>, unchecked: set<nat>, kind: set<nat>,
    canReconn: bool, w: Walked, p: nat)
    requires InCells(cells, s)
  {
    && p <= |s|
    && w.mask == mask + Bits(cells, s[..p])
    && w.unchecked == unchecked - Bits(cells, s[..p])
    && (forall k :: 0 <= k < p ==> !Suits(cells[s[k]], mask, kind, canReconn))
    && (w.next.Some? ==> p < |s| && w.next.value == s[p] && Suits(cells[s[p]], mask, kind, canReconn))
    && (w.next.None? && p < |s| ==> w.unchecked == {} && cells[s[p]].detect == {})
  }

  lemma BitsSplit(cells: seq<Cell>, s: seq<nat>, p: nat)
    requires InCells(cells, s) && 0 < p <= |s|
    ensures Bits(cells, s[..p]) == {cells[s[0]].bit} + Bits(cells, s[1..][..p - 1])
  {
    assert s[..p][1..] == s[1..][..p - 1];
    BitsHead(cells, s[..p]);
  }

  lemma BitsHead(cells: seq<Cell>, s: seq<nat>)
    requires InCells(cells, s) && s != []
    ensures Bits(cells, s) == {cells[s[0]].bit} + Bits(cells, s[1..])
  {
    var rest := s[1..];
    forall x | x in Bits(cells, s) ensures x in {cells[s[0]].bit} + Bits(cells, rest) {
      var k :| 0 <= k < |s| && cells[s[k]].bit == x;
      assert k > 0 ==> rest[k - 1] == s[k];
    }
    assert InCells(cells, rest);
    forall x | x in Bits(cells, rest) ensures x in Bits(cells, s) {
      var k :| 0 <= k < |rest| && cells[rest[k]].bit == x;
      assert s[k + 1] == rest[k];
    }
  }

  lemma {:induction false} WalkPasses(cells: seq<Cell>, s: seq<nat>, mask: set<nat>, unchecked: set<nat>,
    kind: set<nat>, canReconn: bool) returns (p: nat)
    requires InCells(cells, s) && OwnBits(cells, s)
    ensures Passed(cells, s, mask, unchecked, kind, canReconn, Walk(cells, s, mask, unchecked, kind, canReconn), p)
  {
    if s == [] || (unchecked == {} && cells[s[0]].detect == {}) || Suits(cells[s[0]], mask, kind, canReconn) {
      p := 0;
    } else {
      var bit := cells[s[0]].bit;
      var q := WalkPasses(cells, s[1..], mask + {bit}, unchecked - {bit}, kind, canReconn);
      p := q + 1;
      PassedMore(cells, s, mask, unchecked, kind, canReconn, Walk(cells, s, mask, unchecked, kind, canReconn), q);
    }
  }

  // A walk behind a group that does not suit.
  lemma PassedMore(cells: seq<Cell>, s: seq<nat>, mask: set<nat>, unchecked: set<nat>, kind: set<nat>,
    canReconn: bool, w: Walked, q: nat)
    requires s != [] && InCells(cells, s) && OwnBits(cells, s) && !Suits(cells[s[0]], mask, kind, canReconn)
    requires var bit := cells[s[0]].bit;
      Passed(cells, s[1..], mask + {bit}, unchecked - {bit}, kind, canReconn, w, q)
    ensures Passed(cells, s, mask, unchecked, kind, canReconn, w, q + 1)
  {
    hide Walk, Bits;
    BitsSplit(cells, s, q + 1);
    forall k | 0 <= k < q + 1 ensures !Suits(cells[s[k]], mask, kind, canReconn) {
      if k > 0 { assert s[k] == s[1..][k - 1]; }
    }
  }

  // The guard of swop_groups means what it should: a group that was ruled out before the walk
  // is still unchecked exactly when it does not precede the chosen one.
  lemma UncheckedIsBehind(cells: seq<Cell>, s: seq<nat>, mask: set<nat>, kind: set<nat>, canReconn: bool, i: nat)
    requires InCells(cells, s) && OwnBits(cells, s) && i < |s| && cells[s[i]].bit in mask
    requires Walk(cells, s, mask, mask, kind, canReconn).next.Some?
    ensures var w := Walk(cells, s, mask, mask, kind, canReconn);
      exists j :: 0 <= j < |s| && j != i && w.next == Some(s[j]) && (cells[s[i]].bit !in w.unchecked <==> i < j)
  {
    var w := Walk(cells, s, mask, mask, kind, canReconn);
    var j := WalkPasses(cells, s, mask, mask, kind, canReconn);
    assert j < |s| && w.next == Some(s[j]) && j != i;
    if i < j { assert s[..j][i] == s[i]; }
    if cells[s[i]].bit in Bits(cells, s[..j]) {
      var k :| 0 <= k < j && cells[s[..j][k]].bit == cells[s[i]].bit;
      assert k == i;
    }
  }

  // ---------------------------------------------------------------------------------------
  // The search of find_dp
  // ---------------------------------------------------------------------------------------

  // `passing` are the groups whose filters let the destination through; `init` is where the
  // client stood.
  predicate Accepts(c: Cell, e: nat, mask: set<nat>, init: Option<nat>, detected: set<nat>, passing: set<nat>) {
    && c.bit !in mask
    && (init == Some(e) || c.detect == {} || detected * c.detect != {})
    && e in passing
  }

  // The list from place `i` on and round to the place before it.
  function Rotated(order: seq<nat>, i: nat): seq<nat>
    requires i <= |order|
  {
    order[i..] + order[..i]
  }

  // The first of `s` that is accepted, and the mask once the ones before it are ruled out.
  function Search(cells: seq<Cell>, s: seq<nat>, mask: set<nat>, init: Option<nat>, detected: set<nat>,
    passing: set<nat>): (r: (Option<nat>, set<nat>))
    requires forall i :: 0 <= i < |s| ==> s[i] < |cells|
  {
    if s == [] then (None, mask)
    else if Accepts(cells[s[0]], s[0], mask, init, detected, passing) then (Some(s[0]), mask)
    else Search(cells, s[1..], mask + {cells[s[0]].bit}, init, detected, passing)
  }

  // The group found was not ruled out when the search began, nor when it ended; it comes before
  // every other acceptable one, and those passed are ruled out.  If none is found, none was
  // acceptable, and all are ruled out.
  lemma {:induction false} SearchFindsFirst(cells: seq<Cell>, s: seq<nat>, mask: set<nat>, init: Option<nat>,
    detected: set<nat>, passing: set<nat>) returns (p: nat)
    requires InCells(cells, s) && OwnBits(cells, s)
    ensures var r := Search(cells, s, mask, init, detected, passing);
      && p <= |s| && r.1 == mask + Bits(cells, s[..p])
      && (forall k :: 0 <= k < p ==> !Accepts(cells[s[k]], s[k], mask, init, detected, passing))
      && (r.0.None? <==> p == |s|)
      && (r.0.Some? ==>
            && r.0.value == s[p] && Accepts(cells[s[p]], s[p], mask, init, detected, passing)
            && cells[s[p]].bit !in r.1)
  {
    if s == [] || Accepts(cells[s[0]], s[0], mask, init, detected, passing) {
      p := 0;
    } else {
      var bit := cells[s[0]].bit;
      var q := SearchFindsFirst(cells, s[1..], mask + {bit}, init, detected, passing);
      p := q + 1;
      BitsSplit(cells, s, p);
      forall k | 0 <= k < p ensures !Accepts(cells[s[k]], s[k], mask, init, detected, passing) {
        if k > 0 { assert s[k] == s[1..][k - 1]; }
      }
    }
  }

  lemma RotatedIs(cells: seq<Cell>, order: seq<nat>, i: nat)
    requires InCells(cells, order) && OwnBits(cells, order) && i <= |order|
    ensures var s := Rotated(order, i);
      && InCells(cells, s) && OwnBits(cells, s) && Bits(cells, s) == Bits(cells, order) && |s| == |order|
  {
    hide Rotated;
    var s := Rotated(order, i);
    RotatedLength(order, i);
    forall a | 0 <= a < |s| ensures s[a] < |cells| { RotatedAt(order, i, a); }
    forall x | x in Bits(cells, order) ensures x in Bits(cells, s) {
      var k :| 0 <= k < |order| && cells[order[k]].bit == x;
      var a := if k < i then k + |order| - i else k - i;
      RotatedAt(order, i, a);
      assert cells[s[a]].bit == x;
    }
    forall x | x in Bits(cells, s) ensures x in Bits(cells, order) {
      var a :| 0 <= a < |s| && cells[s[a]].bit == x;
      RotatedAt(order, i, a);
    }
    forall a, b | 0 <= a < b < |s| ensures cells[s[a]].bit != cells[s[b]].bit {
      RotatedAt(order, i, a);
      RotatedAt(order, i, b);
    }
  }

  lemma RotatedLength(order: seq<nat>, i: nat)
    requires i <= |order|
    ensures |Rotated(order, i)| == |order|
  {
  }

  lemma RotatedAt(order: seq<nat>, i: nat, a: nat)
    requires i <= |order| && a < |order|
    ensures |Rotated(order, i)| == |order|
    ensures Rotated(order, i)[a] == order[if a < |order| - i then a + i else a - (|order| - i)]
  {
  }

  // ---------------------------------------------------------------------------------------
  // One client among many
  // ---------------------------------------------------------------------------------------

  datatype World = World(cells: seq<Cell>, head: Option<nat>, order: seq<nat>)

  ghost predicate WorldOk(w: World) {
    GroupsOk(w.cells, w.head, w.order)
  }

  ghost function FullMask(w: World): set<nat>
    requires WorldOk(w)
  {
    Bits(w.cells, w.order)
  }

  // What a client, and a cache entry, remember: the group, the ruled-out groups and what went
  // wrong last.
  datatype Choice = Choice(dp: Option<nat>, mask: set<nat>, detect: set<nat>)

  ghost predicate ChoiceOk(w: World, c: Choice)
    requires WorldOk(w)
  {
    c.mask <= FullMask(w) && (c.dp.Some? ==> c.dp.value in w.order)
  }

  // Where the search of find_dp begins.
  ghost function Place(order: seq<nat>, dp: Option<nat>): (i: nat)
    requires dp.Some? ==> dp.value in order
    ensures i <= |order| && (dp.Some? ==> i < |order| && order[i] == dp.value)
  {
    if dp.None? then 0 else var i :| 0 <= i < |order| && order[i] == dp.value; i
  }

  // find_dp: the group it returns, and the client's mask after it.
  ghost function Found(w: World, c: Choice, passing: set<nat>): (Option<nat>, set<nat>)
    requires WorldOk(w) && ChoiceOk(w, c)
  {
    RotatedIs(w.cells, w.order, Place(w.order, c.dp));
    Search(w.cells, Rotated(w.order, Place(w.order, c.dp)), c.mask, c.dp, c.detect, passing)
  }

  // The walk of on_trigger, for a client whose group has failed.
  ghost function TriggerWalk(w: World, c: Choice, kind: set<nat>, canReconn: bool): Walked
    requires WorldOk(w) && ChoiceOk(w, c) && c.dp.Some?
  {
    var mask := c.mask + {w.cells[c.dp.value].bit};
    Walk(w.cells, w.order, mask, mask, kind, canReconn)
  }

  // Whether on_trigger moves the chosen group in front of the failed one.
  predicate Sorts(cells: seq<Cell>, own: nat, next: Option<nat>, unchecked: set<nat>)
    requires own < |cells| && (next.Some? ==> next.value < |cells|)
  {
    && next.Some? && AUTO_SORT in cells[next.value].autoLevel
    && cells[own].pri > cells[next.value].pri
    && cells[own].bit !in unchecked
  }

  function SwopCells(cells: seq<Cell>, c: nat, n: nat): seq<Cell>
    requires c < |cells| && n < |cells|
  {
    seq(|cells|, e requires 0 <= e < |cells| => CellAfter(cells, c, n, e))
  }

  ghost function SwopWorld(w: World, c: nat, n: nat): World
    requires InCells(w.cells, w.order) && c in w.order && n in w.order
  {
    World(SwopCells(w.cells, c, n), if w.head == Some(c) then Some(n) else w.head,
          Exchanged(w.order, Place(w.order, Some(c)), Place(w.order, Some(n))))
  }

  ghost function Blamed(w: World, own: nat): World
    requires own < |w.cells|
  {
    w.(cells := w.cells[own := w.cells[own].(failCount := w.cells[own].failCount + 1)])
  }

  ghost function Demoted(w: World, own: nat): World
    requires own < |w.cells|
  {
    w.(cells := w.cells[own := w.cells[own].(pri := w.cells[own].pri + 1)])
  }

  // The groups after on_trigger: the failed one is charged a failure, may trade places with the
  // chosen one, and loses preference.
  ghost function TriggerWorld(w: World, own: nat, x: Walked, entryMask: set<nat>): World
    requires InCells(w.cells, w.order) && own in w.order && (x.next.Some? ==> x.next.value in w.order)
  {
    SortedWorld(Blamed(w, own), own, x.next, x.unchecked, entryMask)
  }

  ghost function SortedWorld(w: World, own: nat, next: Option<nat>, unchecked: set<nat>, entryMask: set<nat>): World
    requires InCells(w.cells, w.order) && own in w.order && (next.Some? ==> next.value in w.order)
  {
    if w.cells[own].bit in entryMask then w
    else Demoted(if Sorts(w.cells, own, next, unchecked) then SwopWorld(w, own, next.value) else w, own)
  }

  // The same groups, perhaps in another order.
  ghost predicate SameGroups(a: World, b: World) {
    && |b.cells| == |a.cells| && (forall e :: 0 <= e < |a.cells| ==> b.cells[e].bit == a.cells[e].bit)
    && |b.order| == |a.order| && (forall e :: e in a.order <==> e in b.order)
  }

  lemma SameGroupsSameBits(a: World, b: World)
    requires WorldOk(a) && WorldOk(b) && SameGroups(a, b)
    ensures FullMask(a) == FullMask(b)
  {
    forall x | x in FullMask(a) ensures x in FullMask(b) {
      var k :| 0 <= k < |a.order| && a.cells[a.order[k]].bit == x;
      assert a.order[k] in b.order;
    }
    forall x | x in FullMask(b) ensures x in FullMask(a) {
      var k :| 0 <= k < |b.order| && b.cells[b.order[k]].bit == x;
      assert b.order[k] in a.order;
    }
  }

  // Counting a failure or a preference touches neither links nor bits.
  lemma CountersOnly(w: World, v: World)
    requires WorldOk(w) && v == w.(cells := v.cells) && |v.cells| == |w.cells|
    requires forall e :: 0 <= e < |w.cells| ==>
      v.cells[e] == w.cells[e].(pri := v.cells[e].pri, failCount := v.cells[e].failCount)
    ensures WorldOk(v) && SameGroups(w, v)
  {
    forall i | 0 <= i < |w.order| ensures NodeOk(v.cells, v.order, i) {
      assert NodeOk(w.cells, w.order, i);
    }
  }

  lemma SwopWorldOk(w: World, c: nat, n: nat)
    requires WorldOk(w) && c in w.order && n in w.order && Place(w.order, Some(c)) < Place(w.order, Some(n))
    ensures WorldOk(SwopWorld(w, c, n)) && SameGroups(w, SwopWorld(w, c, n))
  {
    var i, j := Place(w.order, Some(c)), Place(w.order, Some(n));
    assert SwoppedCells(w.cells, SwopCells(w.cells, c, n), c, n);
    ExchangedIs(w.order, i, j);
    assert w.head == Some(c) <==> i == 0;
    hide SwopCells, Exchanged, Linked, OwnBits;
    SwopExchanges(w.cells, SwopCells(w.cells, c, n), w.head, w.order, i, j);
  }

  // When on_trigger swaps, the failed group stands in front of the chosen one.
  lemma SortsForward(w: World, c: Choice, kind: set<nat>, canReconn: bool, entryMask: set<nat>)
    requires WorldOk(w) && ChoiceOk(w, c) && c.dp.Some?
    requires var x := TriggerWalk(w, c, kind, canReconn);
      x.next.Some? && w.cells[c.dp.value].bit !in x.unchecked
    ensures var x := TriggerWalk(w, c, kind, canReconn);
      x.next.value in w.order && Place(w.order, c.dp) < Place(w.order, x.next)
  {
    var mask := c.mask + {w.cells[c.dp.value].bit};
    UncheckedIsBehind(w.cells, w.order, mask, kind, canReconn, Place(w.order, c.dp));
  }

  lemma WalkStaysIn(w: World, c: Choice, kind: set<nat>, canReconn: bool)
    requires WorldOk(w) && ChoiceOk(w, c) && c.dp.Some?
    ensures var x := TriggerWalk(w, c, kind, canReconn);
      && (x.next.Some? ==> x.next.value in w.order && x.next != c.dp)
      && c.mask + {w.cells[c.dp.value].bit} <= x.mask <= FullMask(w)
  {
    var mask := c.mask + {w.cells[c.dp.value].bit};
    var p := WalkPasses(w.cells, w.order, mask, mask, kind, canReconn);
    PrefixBits(w.cells, w.order, p);
    assert w.order[Place(w.order, c.dp)] == c.dp.value;
  }

  lemma PrefixBits(cells: seq<Cell>, s: seq<nat>, p: nat)
    requires InCells(cells, s) && p <= |s|
    ensures Bits(cells, s[..p]) <= Bits(cells, s)
  {
    forall x | x in Bits(cells, s[..p]) ensures x in Bits(cells, s) {
      var k :| 0 <= k < p && cells[s[..p][k]].bit == x;
      assert s[k] == s[..p][k];
    }
  }

  lemma BlamedOk(w: World, own: nat)
    requires WorldOk(w) && own in w.order
    ensures WorldOk(Blamed(w, own)) && SameGroups(w, Blamed(w, own)) && Blamed(w, own).order == w.order
    ensures WorldOk(Demoted(w, own)) && SameGroups(w, Demoted(w, own))
  {
    CountersOnly(w, Blamed(w, own));
    CountersOnly(w, Demoted(w, own));
  }

  lemma SwopDemotedOk(w: World, c: nat, n: nat)
    requires WorldOk(w) && c in w.order && n in w.order && Place(w.order, Some(c)) < Place(w.order, Some(n))
    ensures c < |SwopWorld(w, c, n).cells|
    ensures WorldOk(Demoted(SwopWorld(w, c, n), c)) && SameGroups(w, Demoted(SwopWorld(w, c, n), c))
  {
    InOrderInCells(w, c);
    hide SwopWorld, WorldOk, Demoted;
    SwopWorldOk(w, c, n);
    BlamedOk(SwopWorld(w, c, n), c);
  }

  // on_trigger keeps the list well formed and made of the same groups: in particular, whenever
  // it swaps, the failed group stands before the chosen one.
  lemma TriggerKeepsGroups(w: World, c: Choice, kind: set<nat>, canReconn: bool, entryMask: set<nat>)
    requires WorldOk(w) && ChoiceOk(w, c) && c.dp.Some?
    ensures var x := TriggerWalk(w, c, kind, canReconn);
      && (x.next.Some? ==> x.next.value in w.order)
      && WorldOk(TriggerWorld(w, c.dp.value, x, entryMask)) && SameGroups(w, TriggerWorld(w, c.dp.value, x, entryMask))
  {
    hide TriggerWalk, SwopWorld, WorldOk, Bits;
    var x := TriggerWalk(w, c, kind, canReconn);
    var own := c.dp.value;
    WalkStaysIn(w, c, kind, canReconn);
    InOrderInCells(w, own);
    if x.next.Some? { InOrderInCells(w, x.next.value); }
    BlamedOk(w, own);
    var w1 := Blamed(w, own);
    if w.cells[own].bit in entryMask {
    } else if Sorts(w1.cells, own, x.next, x.unchecked) {
      SortsForward(w, c, kind, canReconn, entryMask);
      SwopDemotedOk(w1, own, x.next.value);
    } else {
      BlamedOk(w1, own);
    }
  }

  // Whether on_trigger goes on to reconnect, when the groups are these.
  predicate Reconnects(cells: seq<Cell>, next: Option<nat>, canReconn: bool)
    requires next.Some? ==> next.value < |cells|
  {
    next.Some? && AUTO_NORECONN !in cells[next.value].autoLevel && canReconn
  }

  // on_trigger reads the chosen group's auto_level after it may have traded places with the failed
  // one.  That answers otherwise than before exactly when they do trade places, reconnecting is
  // possible, and one of the two forbids it while the other does not.
  lemma SwapTurnsDecision(w: World, c: Choice, kind: set<nat>, canReconn: bool, entryMask: set<nat>)
    requires WorldOk(w) && ChoiceOk(w, c) && c.dp.Some? && InCells(w.cells, w.order)
    ensures c.dp.value < |w.cells|
    ensures var x, own := TriggerWalk(w, c, kind, canReconn), c.dp.value;
      && (x.next.Some? ==> x.next.value in w.order && x.next.value < |w.cells|)
      && var v := TriggerWorld(w, own, x, entryMask);
      && |v.cells| == |w.cells|
      && (Reconnects(v.cells, x.next, canReconn) != Reconnects(w.cells, x.next, canReconn) <==>
            && canReconn && w.cells[own].bit !in entryMask && Sorts(w.cells, own, x.next, x.unchecked)
            && (AUTO_NORECONN in w.cells[own].autoLevel) != (AUTO_NORECONN in w.cells[x.next.value].autoLevel))
  {
    hide TriggerWalk, WorldOk, Bits, Exchanged, NextAfter, PrevAfter;
    WalkStaysIn(w, c, kind, canReconn);
    InOrderInCells(w, c.dp.value);
    var x := TriggerWalk(w, c, kind, canReconn);
    if x.next.Some? { InOrderInCells(w, x.next.value); }
  }

  // The failed group 0 may be left by reconnecting, and group 1, which sorts in front of it, forbids
  // that: on_trigger chooses group 1 and reconnects all the same.
  lemma SwapAllowsReconnect()
    ensures var failed := Cell(0, {}, {}, 1, 0, Some(1), None);
      var chosen := Cell(1, {7}, {AUTO_NORECONN, AUTO_SORT}, 0, 0, None, Some(0));
      var w, c := World([failed, chosen], Some(0), [0, 1]), Choice(Some(0), {}, {});
      && WorldOk(w) && ChoiceOk(w, c) && InCells(w.cells, w.order)
      && var x := TriggerWalk(w, c, {7}, true);
      && x.next == Some(1) && !Reconnects(w.cells, x.next, true)
      && var v := TriggerWorld(w, 0, x, {}).cells;
      |v| == 2 && Reconnects(v, x.next, true)
  {
    var failed := Cell(0, {}, {}, 1, 0, Some(1), None);
    var chosen := Cell(1, {7}, {AUTO_NORECONN, AUTO_SORT}, 0, 0, None, Some(0));
    var w, c := World([failed, chosen], Some(0), [0, 1]), Choice(Some(0), {}, {});
    assert NodeOk(w.cells, w.order, 0) && NodeOk(w.cells, w.order, 1);
    assert w.order[0] == 0;
    assert w.order[1..] == [1];
    assert 7 in chosen.detect * {7};
    assert Walk(w.cells, [1], {0}, {}, {7}, true) == Walked(Some(1), {0}, {});
    assert {} + {0} == {0} && {0} + {0} == {0} && {0} - {0} == {};
    assert TriggerWalk(w, c, {7}, true) == Walked(Some(1), {0}, {});
    SwapTurnsDecision(w, c, {7}, true, {});
  }

  lemma InOrderInCells(w: World, e: nat)
    requires WorldOk(w) && e in w.order
    ensures InCells(w.cells, w.order) && e < |w.cells|
  {
  }

  // ---------------------------------------------------------------------------------------
  // The life of a client
  // ---------------------------------------------------------------------------------------

  datatype Event =
    // connect_hook on behalf of a new client, or of one that waited for its first request
    | Connect(cached: Option<Choice>, passing: set<nat>, waits: bool)
    // setup_conn, when the first request is about to be sent
    | Request(passing: set<nat>)
    // on_response finds nothing wrong
    | Answer
    // on_trigger, with the reconnect that it may lead to
    | Trigger(kind: set<nat>, canReconn: bool, entryMask: set<nat>, passing: set<nat>, waits: bool)
    // other clients' on_trigger
    | Others(world: World)

  // `tried` are the groups of the connection attempts so far, `base` those that the cache had
  // ruled out, and `waiting` says that connect_hook has chosen a group but waits for the first
  // request before it connects.
  datatype Life = Life(world: World, choice: Choice, tried: seq<nat>, base: set<nat>, waiting: bool)

  ghost predicate LifeOk(l: Life) {
    && WorldOk(l.world) && ChoiceOk(l.world, l.choice)
    && (l.tried != [] ==> l.choice.dp.Some?)
    && l.base <= l.choice.mask
    && InCells(l.world.cells, l.tried) && OwnBits(l.world.cells, l.tried)
    && forall i :: 0 <= i < |l.tried| ==> Spent(l, l.world.cells[l.tried[i]].bit)
  }

  // The groups that are ruled out, or will be when the client's present one fails.
  ghost function Seen(w: World, c: Choice): set<nat>
    requires WorldOk(w) && ChoiceOk(w, c)
  {
    c.mask + if c.dp.Some? then {w.cells[c.dp.value].bit} else {}
  }

  ghost function SeenBy(l: Life): set<nat>
    requires WorldOk(l.world) && ChoiceOk(l.world, l.choice)
  {
    if l.waiting then l.choice.mask else Seen(l.world, l.choice)
  }

  ghost predicate Spent(l: Life, bit: nat)
    requires WorldOk(l.world) && ChoiceOk(l.world, l.choice)
  {
    bit in SeenBy(l) && bit !in l.base && bit in FullMask(l.world)
  }

  ghost predicate Enabled(l: Life, e: Event)
    requires LifeOk(l)
  {
    match e
    case Connect(cached, passing, waits) =>
      (l.tried == [] || l.waiting) && (cached.Some? ==> ChoiceOk(l.world, cached.value))
    case Request(passing) => l.tried != [] && !l.waiting
    case Answer => l.tried != [] && !l.waiting
    case Trigger(kind, canReconn, entryMask, passing, waits) => l.tried != [] && !l.waiting
    case Others(world) => WorldOk(world) && SameGroups(l.world, world)
  }

  // What follows find_dp: a connection attempt with the group found, a wait for the first
  // request, or the first request itself on the connection there is.
  datatype Purpose = Attempt | Wait | Setup

  ghost function Dial(l: Life, passing: set<nat>, purpose: Purpose): Life
    requires WorldOk(l.world) && ChoiceOk(l.world, l.choice)
  {
    var (r, mask) := Found(l.world, l.choice, passing);
    if r.None? then l.(choice := l.choice.(mask := mask))
    else
      l.(choice := l.choice.(mask := mask, dp := r),
         tried := if purpose.Attempt? then l.tried + [r.value] else l.tried,
         waiting := purpose.Wait?)
  }

  ghost function Step(l: Life, e: Event): Life
    requires LifeOk(l) && Enabled(l, e)
  {
    match e
    case Connect(cached, passing, waits) =>
      var l1 := if l.choice.dp.None? && cached.Some? then l.(choice := cached.value, base := cached.value.mask) else l;
      Dial(l1, passing, if waits then Wait else Attempt)
    case Request(passing) => Dial(l, passing, Setup)
    case Answer => l.(choice := l.choice.(mask := l.choice.mask + {l.world.cells[l.choice.dp.value].bit}))
    case Trigger(kind, canReconn, entryMask, passing, waits) =>
      var x := TriggerWalk(l.world, l.choice, kind, canReconn);
      TriggerKeepsGroups(l.world, l.choice, kind, canReconn, entryMask);
      TriggeredOk(l, kind, canReconn, entryMask);
      var l1 := Triggered(l, kind, canReconn, entryMask);
      if x.next.Some? && AUTO_NORECONN !in l1.world.cells[x.next.value].autoLevel && canReconn then
        Dial(l1, passing, if waits then Wait else Attempt)
      else l1
    case Others(world) => l.(world := world)
  }

  ghost function Triggered(l: Life, kind: set<nat>, canReconn: bool, entryMask: set<nat>): Life
    requires LifeOk(l) && l.choice.dp.Some?
  {
    var x := TriggerWalk(l.world, l.choice, kind, canReconn);
    WalkStaysIn(l.world, l.choice, kind, canReconn);
    l.(world := TriggerWorld(l.world, l.choice.dp.value, x, entryMask),
       choice := l.choice.(mask := x.mask, detect := kind))
  }

  // The choice may only rule out more groups, and does not drop its present one without ruling
  // it out.
  lemma RuledOutMore(l: Life, l1: Life)
    requires LifeOk(l) && WorldOk(l1.world) && SameGroups(l.world, l1.world) && ChoiceOk(l1.world, l1.choice)
    requires l1.tried == l.tried && l1.base == l.base
    requires l.choice.mask <= l1.choice.mask && SeenBy(l) <= SeenBy(l1)
    requires l1.choice.dp.Some? || l.choice.dp.None?
    ensures LifeOk(l1)
  {
    SameGroupsSameBits(l.world, l1.world);
    forall i | 0 <= i < |l1.tried| ensures Spent(l1, l1.world.cells[l1.tried[i]].bit) {
      assert Spent(l, l.world.cells[l.tried[i]].bit);
    }
  }

  lemma TriggeredOk(l: Life, kind: set<nat>, canReconn: bool, entryMask: set<nat>)
    requires LifeOk(l) && l.choice.dp.Some? && !l.waiting
    ensures var l1 := Triggered(l, kind, canReconn, entryMask);
      && LifeOk(l1) && l1.tried == l.tried && l1.base == l.base && l1.choice.dp == l.choice.dp && !l1.waiting
      && |l1.world.cells| == |l.world.cells| && SameGroups(l.world, l1.world)
      && Seen(l.world, l.choice) <= l1.choice.mask
  {
    WalkStaysIn(l.world, l.choice, kind, canReconn);
    TriggerKeepsGroups(l.world, l.choice, kind, canReconn, entryMask);
    hide TriggerWorld, TriggerWalk, GroupsOk, Bits;
    var l1 := Triggered(l, kind, canReconn, entryMask);
    SameGroupsSameBits(l.world, l1.world);
    RuledOutMore(l, l1);
  }

  // What find_dp does to a client: it rules out more, and the group it finds, if not the one
  // the client has, was not ruled out and differs from the one the client has, which then is.
  lemma FoundFresh(w: World, c: Choice, passing: set<nat>)
    requires WorldOk(w) && ChoiceOk(w, c)
    ensures var (r, mask) := Found(w, c, passing);
      && c.mask <= mask <= FullMask(w)
      && (r.Some? ==> r.value in w.order && w.cells[r.value].bit !in mask && w.cells[r.value].bit in FullMask(w))
      && (r.None? ==> mask == FullMask(w))
      && (r != c.dp ==> Seen(w, c) <= mask)
  {
    var i := Place(w.order, c.dp);
    var s := Rotated(w.order, i);
    RotatedIs(w.cells, w.order, i);
    var p := SearchFindsFirst(w.cells, s, c.mask, c.dp, c.detect, passing);
    PrefixBits(w.cells, s, p);
    var (r, mask) := Found(w, c, passing);
    if r.Some? {
      assert s[p] in w.order;
      var k :| 0 <= k < |w.order| && w.order[k] == r.value;
    } else {
      assert s[..p] == s;
    }
    if r != c.dp && c.dp.Some? {
      assert s[0] == c.dp.value;
      assert p > 0 && s[..p][0] == s[0];
    }
  }

  lemma DialOk(l: Life, passing: set<nat>, purpose: Purpose)
    requires LifeOk(l)
    requires if purpose.Setup? then !l.waiting else l.tried != [] ==> SeenBy(l) <= l.choice.mask
    ensures var l1 := Dial(l, passing, purpose);
      && LifeOk(l1) && l.choice.mask <= l1.choice.mask
      && l1.world == l.world && l1.base == l.base && (!purpose.Attempt? ==> l1.tried == l.tried)
      && (l1.tried != l.tried ==>
            && l1.choice.dp.Some? && l1.tried == l.tried + [l1.choice.dp.value]
            && FreshBit(l, l1.world.cells[l1.choice.dp.value].bit, l1.choice.mask))
  {
    hide Found, WorldOk, Bits;
    FoundFresh(l.world, l.choice, passing);
    var l1 := Dial(l, passing, purpose);
    var r := Found(l.world, l.choice, passing).0;
    if r.Some? { InOrderInCells(l.world, r.value); }
    forall i | 0 <= i < |l.tried| ensures Spent(l1, l1.world.cells[l.tried[i]].bit) {
      assert Spent(l, l.world.cells[l.tried[i]].bit);
    }
  }

  // A new attempt is with a group that was not ruled out, is not ruled out by the search, and is
  // neither the client's last one nor one tried before.
  ghost predicate Advances(l: Life, l1: Life)
    requires LifeOk(l)
  {
    && LifeOk(l1) && SameGroups(l.world, l1.world)
    && (l.tried != [] ==> l1.base == l.base && l.choice.mask <= l1.choice.mask)
    && (l1.tried != l.tried ==>
          && l1.choice.dp.Some? && l1.tried == l.tried + [l1.choice.dp.value]
          && FreshBit(l, l1.world.cells[l1.choice.dp.value].bit, l1.choice.mask))
  }

  ghost predicate FreshBit(l: Life, bit: nat, mask: set<nat>)
    requires LifeOk(l)
  {
    && bit !in mask
    && (l.tried != [] ==> bit !in SeenBy(l))
    && forall i :: 0 <= i < |l.tried| ==> l.world.cells[l.tried[i]].bit != bit
  }

  lemma ConnectStep(l: Life, cached: Option<Choice>, passing: set<nat>, waits: bool)
    requires LifeOk(l) && Enabled(l, Connect(cached, passing, waits))
    ensures Advances(l, Step(l, Connect(cached, passing, waits)))
  {
    var l1 := if l.choice.dp.None? && cached.Some? then l.(choice := cached.value, base := cached.value.mask) else l;
    DialOk(l1, passing, if waits then Wait else Attempt);
    hide WorldOk, Found;
  }

  lemma TriggerStep(l: Life, kind: set<nat>, canReconn: bool, entryMask: set<nat>, passing: set<nat>, waits: bool)
    requires LifeOk(l) && Enabled(l, Trigger(kind, canReconn, entryMask, passing, waits))
    ensures Advances(l, Step(l, Trigger(kind, canReconn, entryMask, passing, waits)))
  {
    hide Triggered, TriggerWalk, TriggerWorld, Dial, WorldOk;
    TriggeredOk(l, kind, canReconn, entryMask);
    var l1 := Triggered(l, kind, canReconn, entryMask);
    TriggeredSeen(l, l1);
    DialOk(l1, passing, if waits then Wait else Attempt);
    DialWorld(l1, passing, if waits then Wait else Attempt);
  }

  lemma DialWorld(l: Life, passing: set<nat>, purpose: Purpose)
    requires LifeOk(l)
    ensures Dial(l, passing, purpose).world == l.world && Dial(l, passing, purpose).base == l.base
  {
  }

  lemma TriggeredSeen(l: Life, l1: Life)
    requires LifeOk(l) && LifeOk(l1) && SameGroups(l.world, l1.world)
    requires l1.choice.dp == l.choice.dp && Seen(l.world, l.choice) <= l1.choice.mask
    ensures Seen(l1.world, l1.choice) == l1.choice.mask
  {
    if l.choice.dp.Some? { InOrderInCells(l.world, l.choice.dp.value); }
  }

  lemma AnswerStep(l: Life)
    requires LifeOk(l) && Enabled(l, Answer)
    ensures Advances(l, Step(l, Answer))
  {
    var e := l.choice.dp.value;
    InOrderInCells(l.world, e);
    var i := Place(l.world.order, Some(e));
    assert l.world.cells[e].bit in FullMask(l.world);
    RuledOutMore(l, Step(l, Answer));
  }

  // What every step of a client's life keeps.
  lemma StepAdvances(l: Life, e: Event)
    requires LifeOk(l) && Enabled(l, e)
    ensures Advances(l, Step(l, e))
  {
    hide Advances, Triggered, Dial;
    match e
    case Connect(cached, passing, waits) => ConnectStep(l, cached, passing, waits);
    case Request(passing) => RequestStep(l, passing);
    case Answer => AnswerStep(l);
    case Trigger(kind, canReconn, entryMask, passing, waits) =>
      TriggerStep(l, kind, canReconn, entryMask, passing, waits);
    case Others(world) => OthersStep(l, world);
  }

  lemma RequestStep(l: Life, passing: set<nat>)
    requires LifeOk(l) && Enabled(l, Request(passing))
    ensures Advances(l, Step(l, Request(passing)))
  {
    DialOk(l, passing, Setup);
  }

  lemma OthersStep(l: Life, world: World)
    requires LifeOk(l) && Enabled(l, Others(world))
    ensures Advances(l, Step(l, Others(world)))
  {
    if l.choice.dp.Some? { InOrderInCells(l.world, l.choice.dp.value); }
    SameGroupsSameBits(l.world, world);
    RuledOutMore(l, l.(world := world));
  }

  ghost predicate Possible(l: Life, events: seq<Event>)
    requires LifeOk(l)
    decreases |events|
  {
    events == [] ||
    (Enabled(l, events[0]) && LifeOk(Step(l, events[0])) && Possible(Step(l, events[0]), events[1..]))
  }

  ghost function Run(l: Life, events: seq<Event>): Life
    requires LifeOk(l) && Possible(l, events)
    decreases |events|
  {
    if events == [] then l else Run(Step(l, events[0]), events[1..])
  }

  lemma {:induction false} RunKeeps(l: Life, events: seq<Event>)
    requires LifeOk(l) && Possible(l, events)
    ensures LifeOk(Run(l, events)) && SameGroups(l.world, Run(l, events).world)
    decreases |events|
  {
    if events != [] {
      hide LifeOk, Step, Enabled;
      StepAdvances(l, events[0]);
      RunKeeps(Step(l, events[0]), events[1..]);
    }
  }

  lemma {:induction false} BitsCount(cells: seq<Cell>, s: seq<nat>)
    requires InCells(cells, s) && OwnBits(cells, s)
    ensures |Bits(cells, s)| == |s|
  {
    if s != [] {
      BitsCount(cells, s[1..]);
      BitsSplit(cells, s, |s|);
      assert s[..|s|] == s && s[1..][..|s| - 1] == s[1..];
      assert cells[s[0]].bit !in Bits(cells, s[1..]);
    }
  }

  // Over its whole life a client tries each group at most once, never one that its cache entry
  // had ruled out, and so makes at most as many connection attempts as groups remain.  This
  // holds whatever other clients' failures do to the order of the groups meanwhile.
  lemma AttemptsBounded(l: Life, events: seq<Event>)
    requires WorldOk(l.world) && l == Life(l.world, Choice(None, {}, {}), [], {}, false)
    requires LifeOk(l) ==> Possible(l, events)
    ensures LifeOk(l) && LifeOk(Run(l, events))
    ensures var r := Run(l, events);
      && (forall i, j :: 0 <= i < j < |r.tried| ==> r.tried[i] != r.tried[j])
      && (forall i :: 0 <= i < |r.tried| ==> r.world.cells[r.tried[i]].bit !in r.base)
      && |r.tried| + |r.base| <= |l.world.order|
  {
    assert LifeOk(l);
    RunKeeps(l, events);
    var r := Run(l, events);
    var used := Bits(r.world.cells, r.tried);
    forall x | x in used ensures x in FullMask(r.world) - r.base {
      var k :| 0 <= k < |r.tried| && r.world.cells[r.tried[k]].bit == x;
      assert Spent(r, x);
    }
    BitsCount(r.world.cells, r.tried);
    BitsCount(r.world.cells, r.world.order);
    Disjoint(used, r.base, FullMask(r.world));
    forall i | 0 <= i < |r.tried| ensures r.world.cells[r.tried[i]].bit !in r.base {
      assert Spent(r, r.world.cells[r.tried[i]].bit);
    }
  }

  lemma Disjoint(a: set<nat>, b: set<nat>, whole: set<nat>)
    requires a <= whole - b && b <= whole
    ensures |a| + |b| <= |whole|
  {
    assert |a + b| == |a| + |b|;
    assert whole == (a + b) + (whole - (a + b));
  }

  // ---------------------------------------------------------------------------------------
  // The code
  // ---------------------------------------------------------------------------------------

  // What swop_groups relies on: all the links it follows are there.
  ghost predicate SwopReady(cells: seq<Cell>, c: nat, n: nat) {
    && c < |cells| && n < |cells| && c != n
    && cells[c].next.Some? && cells[n].prev.Some?
    && InRange(cells, cells[c].next) && InRange(cells, cells[c].prev)
    && InRange(cells, cells[n].next) && InRange(cells, cells[n].prev)
    && (cells[c].next == Some(n) <==> cells[n].prev == Some(c))
    && cells[c].next != Some(c) && cells[c].prev != Some(c) && cells[n].next != Some(n) && cells[n].prev != Some(n)
    && cells[c].prev != Some(n) && cells[n].next != Some(c)
    && (cells[c].prev.Some? ==> cells[c].prev != cells[n].prev)
    && (cells[n].next.Some? ==> cells[n].next != cells[c].next)
  }

  // A cell once the two groups have taken over each other's links.
  function HalfSwopped(cells: seq<Cell>, c: nat, n: nat, e: nat): Cell
    requires c < |cells| && n < |cells| && e < |cells|
  {
    cells[e].(
      next := if e == c then cells[n].next else if e == n then cells[c].next
              else if cells[c].prev == Some(e) then Some(n) else cells[e].next,
      prev := if e == n then cells[c].prev else if e == c then cells[n].prev
              else if cells[n].next == Some(e) then Some(c) else cells[e].prev)
  }

  predicate InRange(cells: seq<Cell>, e: Option<nat>) {
    e.Some? ==> e.value < |cells|
  }

  lemma SwopIsReady(w: World, c: nat, n: nat)
    requires WorldOk(w) && c in w.order && n in w.order && Place(w.order, Some(c)) < Place(w.order, Some(n))
    ensures SwopReady(w.cells, c, n)
  {
    var i, j := Place(w.order, Some(c)), Place(w.order, Some(n));
    NeighboursOf(w.cells, w.head, w.order, i);
    NeighboursOf(w.cells, w.head, w.order, j);
  }

  lemma AllInCells(w: World)
    requires WorldOk(w)
    ensures InCells(w.cells, w.order) && OwnBits(w.cells, w.order) && w.head == At(w.order, 0)
  {
  }

  lemma NextInOrder(w: World, k: nat)
    requires WorldOk(w) && k < |w.order|
    ensures w.order[k] < |w.cells| && w.cells[w.order[k]].next == At(w.order, k + 1)
    ensures w.order[k..][0] == w.order[k] && w.order[k..][1..] == w.order[k + 1..]
  {
    assert NodeOk(w.cells, w.order, k);
  }

  // The walk does not look at the counters.
  lemma {:induction false} WalkIgnoresCounters(a: seq<Cell>, b: seq<Cell>, s: seq<nat>, mask: set<nat>,
    unchecked: set<nat>, kind: set<nat>, canReconn: bool)
    requires InCells(a, s) && |a| == |b|
    requires forall e :: 0 <= e < |a| ==> b[e] == a[e].(pri := b[e].pri, failCount := b[e].failCount)
    ensures Walk(b, s, mask, unchecked, kind, canReconn) == Walk(a, s, mask, unchecked, kind, canReconn)
  {
    if s != [] {
      var bit := a[s[0]].bit;
      assert b[s[0]].bit == bit && b[s[0]].detect == a[s[0]].detect && b[s[0]].autoLevel == a[s[0]].autoLevel;
      WalkIgnoresCounters(a, b, s[1..], mask + {bit}, unchecked - {bit}, kind, canReconn);
    }
  }

  // What on_trigger knows once its walk is over.
  lemma TriggerFacts(w: World, c: Choice, kind: set<nat>, canReconn: bool)
    requires WorldOk(w) && ChoiceOk(w, c) && c.dp.Some?
    ensures c.dp.value < |w.cells| && c.dp.value in w.order
    ensures var w1, mask := Blamed(w, c.dp.value), c.mask + {w.cells[c.dp.value].bit};
      var x := TriggerWalk(w, c, kind, canReconn);
      && WorldOk(w1) && InCells(w1.cells, w1.order) && FullMask(w1) == FullMask(w)
      && Walk(w1.cells, w1.order, mask, mask, kind, canReconn) == x
      && (x.next.Some? ==> x.next.value in w1.order && x.next.value < |w1.cells|)
      && (x.next.Some? && w1.cells[c.dp.value].bit !in x.unchecked ==>
            Place(w1.order, c.dp) < Place(w1.order, x.next))
      && x.mask <= FullMask(w)
  {
    var w1, mask := Blamed(w, c.dp.value), c.mask + {w.cells[c.dp.value].bit};
    InOrderInCells(w, c.dp.value);
    BlamedOk(w, c.dp.value);
    SameGroupsSameBits(w, w1);
    WalkIgnoresCounters(w.cells, w1.cells, w.order, mask, mask, kind, canReconn);
    WalkStaysIn(w, c, kind, canReconn);
    var x := TriggerWalk(w, c, kind, canReconn);
    if x.next.Some? {
      InOrderInCells(w, x.next.value);
      if w1.cells[c.dp.value].bit !in x.unchecked { SortsForward(w, c, kind, canReconn, {}); }
    }
  }

  // Nothing is acceptable once all of the groups are ruled out.
  lemma {:induction false} SearchAllRuledOut(cells: seq<Cell>, s: seq<nat>, mask: set<nat>, init: Option<nat>,
    detected: set<nat>, passing: set<nat>)
    requires InCells(cells, s) && Bits(cells, s) <= mask
    ensures Search(cells, s, mask, init, detected, passing) == (None, mask)
  {
    if s != [] {
      assert cells[s[0]].bit in Bits(cells, s);
      BitsSplit(cells, s, |s|);
      assert s[..|s|] == s && s[1..][..|s| - 1] == s[1..];
      assert mask + {cells[s[0]].bit} == mask;
      SearchAllRuledOut(cells, s[1..], mask, init, detected, passing);
    }
  }

  // The loop of find_dp, after it has left `k` groups behind: `dp` is where it stands.
  ghost predicate Searching(w: World, c: Choice, passing: set<nat>, k: nat, dp: Option<nat>, mask: set<nat>)
    requires WorldOk(w) && ChoiceOk(w, c)
  {
    var s := Rotated(w.order, Place(w.order, c.dp));
    && k <= |s| == |w.order| && InCells(w.cells, s)
    && (k == |s| || dp == Some(s[k]) || (dp.None? && s[k] == w.order[0]))
    && mask == c.mask + Bits(w.cells, s[..k])
    && Search(w.cells, s[k..], mask, c.dp, c.detect, passing) == Found(w, c, passing)
  }

  lemma SearchBegins(w: World, c: Choice, passing: set<nat>)
    requires WorldOk(w) && ChoiceOk(w, c)
    ensures Searching(w, c, passing, 0, c.dp, c.mask)
  {
    var s := Rotated(w.order, Place(w.order, c.dp));
    RotatedIs(w.cells, w.order, Place(w.order, c.dp));
    assert s[0..] == s;
  }

  lemma SearchStops(w: World, c: Choice, passing: set<nat>, k: nat, dp: Option<nat>)
    requires WorldOk(w) && ChoiceOk(w, c) && Searching(w, c, passing, k, dp, FullMask(w))
    ensures Found(w, c, passing) == (None, FullMask(w))
  {
    var s := Rotated(w.order, Place(w.order, c.dp));
    RotatedIs(w.cells, w.order, Place(w.order, c.dp));
    SuffixBits(w.cells, s, k);
    SearchAllRuledOut(w.cells, s[k..], FullMask(w), c.dp, c.detect, passing);
  }

  lemma SuffixBits(cells: seq<Cell>, s: seq<nat>, k: nat)
    requires InCells(cells, s) && k <= |s|
    ensures Bits(cells, s[k..]) <= Bits(cells, s)
  {
    forall x | x in Bits(cells, s[k..]) ensures x in Bits(cells, s) {
      var j :| 0 <= j < |s| - k && cells[s[k..][j]].bit == x;
      assert s[k + j] == s[k..][j];
    }
  }

  // Where the loop stands, and where it goes next.
  lemma SearchStands(w: World, c: Choice, passing: set<nat>, k: nat, dp: Option<nat>, mask: set<nat>)
    requires WorldOk(w) && ChoiceOk(w, c) && Searching(w, c, passing, k, dp, mask) && mask != FullMask(w)
    ensures var s := Rotated(w.order, Place(w.order, c.dp));
      var here := if dp.None? then w.head else dp;
      && k < |s| == |w.order| && here == Some(s[k]) && s[k] < |w.cells| && InCells(w.cells, s)
      && (k + 1 == |s| || w.cells[s[k]].next == Some(s[k + 1]) ||
          (w.cells[s[k]].next.None? && s[k + 1] == w.order[0]))
  {
    var i := Place(w.order, c.dp);
    var s := Rotated(w.order, i);
    RotatedIs(w.cells, w.order, i);
    AllInCells(w);
    assert s[..|s|] == s;
    hide WorldOk, Rotated, Search, Found;
    RotatedNext(w, i, k);
  }

  lemma RotatedNext(w: World, i: nat, k: nat)
    requires WorldOk(w) && i <= |w.order| && k < |w.order|
    ensures var s := Rotated(w.order, i);
      && s[k] < |w.cells|
      && (k + 1 == |s| || w.cells[s[k]].next == Some(s[k + 1]) ||
          (w.cells[s[k]].next.None? && s[k + 1] == w.order[0]))
  {
    var s := Rotated(w.order, i);
    var x := if k < |w.order| - i then k + i else k - (|w.order| - i);
    assert s[k] == w.order[x];
    hide WorldOk;
    NextInOrder(w, x);
  }

  lemma SearchTurns(w: World, c: Choice, passing: set<nat>, k: nat, dp: Option<nat>, mask: set<nat>)
    requires WorldOk(w) && ChoiceOk(w, c) && Searching(w, c, passing, k, dp, mask) && mask != FullMask(w)
    ensures var here := if dp.None? then w.head else dp;
      && k < |w.order| && here.Some? && here.value < |w.cells|
      && var g := w.cells[here.value];
      if Accepts(g, here.value, mask, c.dp, c.detect, passing) then Found(w, c, passing) == (here, mask)
      else Searching(w, c, passing, k + 1, g.next, mask + {g.bit})
  {
    hide WorldOk, ChoiceOk, Rotated, Found, Accepts, FullMask, Bits;
    SearchStands(w, c, passing, k, dp, mask);
    var s := Rotated(w.order, Place(w.order, c.dp));
    assert s[k..][0] == s[k] && s[k..][1..] == s[k + 1..];
    BitsSnoc(w.cells, s, k);
  }

  lemma BitsSnoc(cells: seq<Cell>, s: seq<nat>, k: nat)
    requires InCells(cells, s) && k < |s|
    ensures Bits(cells, s[..k + 1]) == Bits(cells, s[..k]) + {cells[s[k]].bit}
  {
    forall x | x in Bits(cells, s[..k]) ensures x in Bits(cells, s[..k + 1]) {
      var j :| 0 <= j < k && cells[s[..k][j]].bit == x;
      assert s[..k + 1][j] == s[j];
    }
    forall x | x in Bits(cells, s[..k + 1]) ensures x in Bits(cells, s[..k]) + {cells[s[k]].bit} {
      var j :| 0 <= j < k + 1 && cells[s[..k + 1][j]].bit == x;
      assert j < k ==> s[..k][j] == s[j];
    }
    assert s[..k + 1][k] == s[k];
  }

  class Client {
    var dp: Option<nat>
    var dpMask: set<nat>
    var detect: set<nat>

    ghost function Now(): Choice
      reads this
    {
      Choice(dp, dpMask, detect)
    }
  }

  // What the cache remembers about a destination (struct elem_i).
  class Entry {
    var dp: Option<nat>
    var dpMask: set<nat>
    var detect: set<nat>

    ghost function Now(): Choice
      reads this
    {
      Choice(dp, dpMask, detect)
    }
  }

  class Groups {
    var cells: seq<Cell>
    var head: Option<nat>     // params.dp
    var fullMask: set<nat>    // params.dp_full_mask
    ghost var order: seq<nat>

    ghost function Now(): World
      reads this
    {
      World(cells, head, order)
    }

    ghost predicate Valid()
      reads this
    {
      WorldOk(Now()) && fullMask == FullMask(Now())
    }

    // The beginning of swop_groups: the two groups take over each other's links, and their
    // neighbours outside follow.
    method TradeLinks(dpc: nat, dpn: nat)
      requires SwopReady(cells, dpc, dpn)
      modifies this`cells
      ensures |cells| == |old(cells)|
      ensures forall e :: 0 <= e < |cells| ==> cells[e] == HalfSwopped(old(cells), dpc, dpn, e)
    {
      var copy := cells[dpc];
      cells := cells[dpc := cells[dpc].(next := cells[dpn].next)];
      cells := cells[dpc := cells[dpc].(prev := cells[dpn].prev)];
      cells := cells[dpn := cells[dpn].(prev := copy.prev)];
      cells := cells[dpn := cells[dpn].(next := copy.next)];
      if cells[dpn].prev.Some? {
        var p := cells[dpn].prev.value;
        cells := cells[p := cells[p].(next := Some(dpn))];
      }
      if cells[dpc].next.Some? {
        var q := cells[dpc].next.value;
        cells := cells[q := cells[q].(prev := Some(dpc))];
      }
    }

    // Then what stands between them, or their links to each other.
    method Relink(dpc: nat, dpn: nat)
      requires SwopReady(cells, dpc, dpn)
      modifies this`cells
      ensures |cells| == |old(cells)| && dpc < |cells| && dpn < |cells|
      ensures forall e :: 0 <= e < |cells| ==> cells[e] == old(cells)[e].(
        next := NextAfter(old(cells), dpc, dpn, e), prev := PrevAfter(old(cells), dpc, dpn, e))
    {
      var adjacent := cells[dpc].next == Some(dpn);
      TradeLinks(dpc, dpn);
      if !adjacent {
        var q := cells[dpn].next.value;
        cells := cells[q := cells[q].(prev := Some(dpn))];
        var p := cells[dpc].prev.value;
        cells := cells[p := cells[p].(next := Some(dpc))];
      } else {
        cells := cells[dpc := cells[dpc].(prev := Some(dpn))];
        cells := cells[dpn := cells[dpn].(next := Some(dpc))];
      }
    }

    // swop_groups
    method SwopGroups(dpc: nat, dpn: nat)
      requires Valid() && dpc in order && dpn in order && Place(order, Some(dpc)) < Place(order, Some(dpn))
      modifies this`cells, this`head, this`order
      ensures InCells(old(cells), old(order)) && Now() == SwopWorld(old(Now()), dpc, dpn)
      ensures Valid()
    {
      ghost var w := Now();
      SwopIsReady(w, dpc, dpn);
      SwopWorldOk(w, dpc, dpn);
      SameGroupsSameBits(w, SwopWorld(w, dpc, dpn));
      InOrderInCells(w, dpc);
      hide SwopReady, WorldOk, FullMask, NextAfter, PrevAfter, Exchanged;
      Relink(dpc, dpn);
      var detect, autoLevel := cells[dpc].detect, cells[dpc].autoLevel;
      cells := cells[dpc := cells[dpc].(detect := cells[dpn].detect, autoLevel := cells[dpn].autoLevel)];
      cells := cells[dpn := cells[dpn].(detect := detect, autoLevel := autoLevel)];
      if head == Some(dpc) { head := Some(dpn); }
      order := Exchanged(order, Place(order, Some(dpc)), Place(order, Some(dpn)));
      assert cells == SwopCells(w.cells, dpc, dpn);
    }

    // The loop of on_trigger.
    method WalkGroups(client: Client, kind: set<nat>, canReconn: bool)
      returns (next: Option<nat>, unchecked: set<nat>)
      requires Valid()
      modifies client`dpMask
      ensures InCells(cells, order)
      ensures Walked(next, client.dpMask, unchecked)
        == Walk(cells, order, old(client.dpMask), old(client.dpMask), kind, canReconn)
    {
      hide WorldOk, FullMask;
      AllInCells(Now());
      unchecked := client.dpMask;
      next := None;
      var dp := head;
      ghost var k := 0;
      assert order[0..] == order;
      while dp.Some?
        invariant k <= |order| && dp == At(order, k)
        invariant Walk(cells, order[k..], client.dpMask, unchecked, kind, canReconn)
          == Walk(cells, order, old(client.dpMask), old(client.dpMask), kind, canReconn)
        decreases |order| - k
      {
        NextInOrder(Now(), k);
        var c := cells[dp.value];
        if unchecked == {} && c.detect == {} {
          return;
        }
        if c.bit !in client.dpMask && (c.detect == {} || c.detect * kind != {})
            && (AUTO_ONRECONN in c.autoLevel ==> canReconn) {
          next := dp;
          return;
        }
        unchecked := unchecked - {c.bit};
        client.dpMask := client.dpMask + {c.bit};
        dp := c.next;
        k := k + 1;
      }
      assert order[k..] == [];
    }

    // The part of on_trigger that sorts the groups by preference.
    method Sort(own: nat, next: Option<nat>, unchecked: set<nat>, entryMask: set<nat>)
      requires Valid() && own in order && (next.Some? ==> next.value in order)
      requires own < |cells| && (next.Some? ==> next.value < |cells|)
      requires next.Some? && cells[own].bit !in unchecked ==> Place(order, Some(own)) < Place(order, next)
      modifies this`cells, this`head, this`order
      ensures InCells(old(cells), old(order))
      ensures Now() == SortedWorld(old(Now()), own, next, unchecked, entryMask)
      ensures Valid()
    {
      AllInCells(Now());
      hide WorldOk, FullMask, SwopWorld;
      if cells[own].bit !in entryMask {
        if Sorts(cells, own, next, unchecked) {
          SwopWorldOk(Now(), own, next.value);
          SwopGroups(own, next.value);
        }
        SortedOk(Now(), own);
        cells := cells[own := cells[own].(pri := cells[own].pri + 1)];
      }
    }

    lemma SortedOk(w: World, own: nat)
      requires WorldOk(w) && own in w.order
      ensures own < |w.cells| && WorldOk(Demoted(w, own)) && FullMask(Demoted(w, own)) == FullMask(w)
    {
      InOrderInCells(w, own);
      BlamedOk(w, own);
      SameGroupsSameBits(w, Demoted(w, own));
    }

    // The beginning of on_trigger: the client's group has failed.
    method Blame(client: Client, kind: set<nat>)
      requires client.dp.Some? && client.dp.value < |cells|
      modifies this`cells, client`dpMask, client`detect
      ensures Now() == Blamed(old(Now()), client.dp.value)
      ensures client.detect == kind && client.dpMask == old(client.dpMask) + {old(cells)[client.dp.value].bit}
    {
      var own := client.dp.value;
      cells := cells[own := cells[own].(failCount := cells[own].failCount + 1)];
      client.dpMask := client.dpMask + {cells[own].bit};
      client.detect := kind;
    }

    // The end of on_trigger: what the cache is told.
    method Remember(entry: Entry, client: Client, next: Option<nat>)
      modifies entry
      ensures entry.Now() == if next.None? then Choice(head, {}, {})
                             else Choice(next, old(entry.dpMask) + client.dpMask, client.detect)
    {
      if next.None? {
        entry.dpMask := {};
        entry.detect := {};
        entry.dp := head;
      } else {
        entry.dpMask := entry.dpMask + client.dpMask;
        entry.detect := client.detect;
        entry.dp := next;
      }
    }

    // on_trigger, once cache_add has returned the entry for the destination.  `reconnect` says
    // whether it goes on to reconnect.
    method OnTrigger(client: Client, entry: Entry, kind: set<nat>, canReconn: bool)
      returns (next: Option<nat>, reconnect: bool)
      requires Valid() && ChoiceOk(Now(), client.Now()) && client.dp.Some? && ChoiceOk(Now(), entry.Now())
      modifies this, client, entry
      ensures WorldOk(old(Now())) && InCells(old(cells), old(order))
      ensures var x := TriggerWalk(old(Now()), old(client.Now()), kind, canReconn);
        && next == x.next && (next.Some? ==> next.value in old(order) && next.value < |cells|)
        && client.Now() == old(client.Now()).(mask := x.mask, detect := kind)
        && Now() == TriggerWorld(old(Now()), client.dp.value, x, old(entry.dpMask))
        && entry.Now() == (if next.None? then Choice(head, {}, {}) else Choice(next, old(entry.dpMask) + x.mask, kind))
        && reconnect == Reconnects(cells, next, canReconn)
      ensures Valid() && ChoiceOk(Now(), entry.Now()) && ChoiceOk(Now(), client.Now())
    {
      ghost var w, c, m := Now(), client.Now(), entry.dpMask;
      TriggerFacts(w, c, kind, canReconn);
      TriggeredChoices(w, c, kind, canReconn, m);
      hide WorldOk, FullMask, SortedWorld, TriggerWalk, Walk, ChoiceOk, Blamed, InCells;
      Blame(client, kind);
      var unchecked;
      next, unchecked := WalkGroups(client, kind, canReconn);
      Sort(client.dp.value, next, unchecked, entry.dpMask);
      Remember(entry, client, next);
      reconnect := next.Some? && AUTO_NORECONN !in cells[next.value].autoLevel && canReconn;
    }

    lemma TriggeredChoices(w: World, c: Choice, kind: set<nat>, canReconn: bool, entryMask: set<nat>)
      requires WorldOk(w) && ChoiceOk(w, c) && c.dp.Some? && entryMask <= FullMask(w)
      ensures InCells(w.cells, w.order)
      ensures var x := TriggerWalk(w, c, kind, canReconn);
        && (x.next.Some? ==> x.next.value in w.order)
        && var v := TriggerWorld(w, c.dp.value, x, entryMask);
        && WorldOk(v) && FullMask(v) == FullMask(w) && |v.cells| == |w.cells|
        && ChoiceOk(v, c.(mask := x.mask, detect := kind))
        && ChoiceOk(v, Choice(v.head, {}, {}))
        && (x.next.Some? ==> ChoiceOk(v, Choice(x.next, entryMask + x.mask, kind)))
    {
      AllInCells(w);
      TriggerKeepsGroups(w, c, kind, canReconn, entryMask);
      var x := TriggerWalk(w, c, kind, canReconn);
      WalkStaysIn(w, c, kind, canReconn);
      hide TriggerWorld, TriggerWalk, FullMask;
      var v := TriggerWorld(w, c.dp.value, x, entryMask);
      SameGroupsSameBits(w, v);
      AllInCells(v);
      hide WorldOk;
    }

    // find_dp.  Its loop goes round the list; it ends because every group it leaves behind is
    // ruled out, and it stops when all are.
    method FindDp(client: Client, passing: set<nat>) returns (r: Option<nat>)
      requires Valid() && ChoiceOk(Now(), client.Now())
      modifies client`dpMask
      ensures (r, client.dpMask) == Found(Now(), old(client.Now()), passing)
      ensures ChoiceOk(Now(), client.Now()) && (r.Some? ==> r.value in order)
    {
      hide WorldOk, FullMask, Searching, Found, Seen;
      ghost var w, c := Now(), client.Now();
      FoundFresh(w, c, passing);
      SearchBegins(w, c, passing);
      var dp, init := client.dp, client.dp;
      ghost var k := 0;
      while true
        invariant Now() == w && client.dp == c.dp && client.detect == c.detect
        invariant Searching(w, c, passing, k, dp, client.dpMask)
        decreases |order| - k
      {
        ghost var came := dp;
        if dp.None? { dp := head; }
        if client.dpMask == fullMask {
          SearchStops(w, c, passing, k, came);
          return None;
        }
        SearchTurns(w, c, passing, k, came, client.dpMask);
        var g := cells[dp.value];
        if g.bit !in client.dpMask && (dp == init || g.detect == {} || client.detect * g.detect != {})
            && dp.value in passing {
          return dp;
        }
        client.dpMask := client.dpMask + {g.bit};
        dp := g.next;
        k := k + 1;
      }
    }

    // connect_hook up to create_conn, whose result is none of its business.  `cached` is what
    // cache_get returns; `holdBack` says for which groups the client's first request is needed
    // and missing, and delay_conn is on.
    method ConnectHook(client: Client, cached: Option<Choice>, passing: set<nat>, holdBack: set<nat>)
      returns (r: Option<nat>, waits: bool)
      requires Valid() && ChoiceOk(Now(), client.Now()) && (cached.Some? ==> ChoiceOk(Now(), cached.value))
      modifies client
      ensures var c := if old(client.dp).None? && cached.Some? then cached.value else old(client.Now());
        && ChoiceOk(Now(), c) && r == Found(Now(), c, passing).0
        && client.Now() == c.(mask := Found(Now(), c, passing).1, dp := if r.None? then c.dp else r)
      ensures waits == (r.Some? && r.value in holdBack)
      ensures ChoiceOk(Now(), client.Now())
    {
      hide Found, FullMask, WorldOk;
      if client.dp.None? && cached.Some? {
        client.dpMask := cached.value.mask;
        client.detect := cached.value.detect;
        client.dp := cached.value.dp;
      }
      r := FindDp(client, passing);
      if r.None? {
        return None, false;
      }
      client.dp := r;
      waits := r.value in holdBack;
    }

    // setup_conn, as far as the choice goes: the same search, now that the request is known.
    method SetupConn(client: Client, passing: set<nat>) returns (ok: bool)
      requires Valid() && ChoiceOk(Now(), client.Now())
      modifies client
      ensures var c := old(client.Now());
        && ok == Found(Now(), c, passing).0.Some?
        && client.Now() == c.(mask := Found(Now(), c, passing).1, dp := if ok then Found(Now(), c, passing).0 else c.dp)
      ensures ChoiceOk(Now(), client.Now())
    {
      hide Found, FullMask, WorldOk;
      var r := FindDp(client, passing);
      if r.None? {
        return false;
      }
      client.dp := r;
      ok := true;
    }
  }
}
