// The pair fields of the events of byedpi/conev.c, which their callers link into cycles.

module EventPairs {
  import opened Common
  import opened Events

  // The live events met from `e` on along the pair fields, each once.
  ghost function Chain(live: set<nat>, items: seq<Item>, e: nat): (r: seq<nat>)
    requires InRange(live, items)
    ensures forall i :: 0 <= i < |r| ==> r[i] in live && r[i] < |items|
    ensures e in live ==> |r| > 0 && r[0] == e
    ensures e !in live ==> r == []
    decreases |live|
  {
    if e !in live then []
    else match items[e].pair
      case None => [e]
      case Some(p) => [e] + Chain(live - {e}, items, p)
  }

  // The pair fields of the live events form cycles.
  ghost predicate Paired(live: set<nat>, items: seq<Item>)
    requires InRange(live, items)
  {
    && (forall e :: e in live && items[e].pair.Some? ==>
          items[e].pair.value in live && items[items[e].pair.value].pair.Some?)
    && (forall a, b :: a in live && b in live && items[a].pair.Some? && items[a].pair == items[b].pair ==> a == b)
  }

  // Along a chain each event is the pair of the one before; the last one points at nothing that
  // is left.
  lemma {:induction false} ChainLinks(live: set<nat>, items: seq<Item>, e: nat)
    requires InRange(live, items) && e in live
    ensures var c := Chain(live, items, e);
      && (forall i :: 0 <= i < |c| - 1 ==> items[c[i]].pair == Some(c[i + 1]))
      && (items[c[|c| - 1]].pair.Some? ==> items[c[|c| - 1]].pair.value !in live - Members(c))
      && (forall i, j :: 0 <= i < j < |c| ==> c[i] != c[j])
    decreases |live|
  {
    var c := Chain(live, items, e);
    match items[e].pair
    case None =>
    case Some(p) =>
      var d := Chain(live - {e}, items, p);
      assert c == [e] + d;
      if p in live - {e} {
        ChainLinks(live - {e}, items, p);
        assert live - Members(c) == (live - {e}) - Members(d);
        forall j | 0 <= j < |d| ensures d[j] != e { assert d[j] in d; }
      } else {
        assert c == [e];
      }
  }

  // When the pair fields form cycles, the chain of a paired event comes back to it.
  lemma ChainReturns(live: set<nat>, items: seq<Item>, e: nat)
    requires InRange(live, items) && Paired(live, items) && e in live && items[e].pair.Some?
    ensures var c := Chain(live, items, e); items[c[|c| - 1]].pair == Some(e)
  {
    hide Chain, Paired;
    var c := Chain(live, items, e);
    ChainLinks(live, items, e);
    ChainAllPaired(live, items, e, |c| - 1);
    var last := c[|c| - 1];
    var p := items[last].pair.value;
    assert last in live;
    PairedAt(live, items, last);
    assert p in Members(c);
    var j :| 0 <= j < |c| && c[j] == p;
    OnlyFirst(live, items, c, j);
  }

  // Of a chain, the last event can only point at the first: every other one is pointed at by
  // the event before it.
  lemma OnlyFirst(live: set<nat>, items: seq<Item>, c: seq<nat>, k: nat)
    requires InRange(live, items) && Paired(live, items)
    requires k < |c| && (forall i :: 0 <= i < |c| ==> c[i] in live)
    requires forall i :: 0 <= i < |c| - 1 ==> items[c[i]].pair == Some(c[i + 1])
    requires forall i, j :: 0 <= i < j < |c| ==> c[i] != c[j]
    requires items[c[|c| - 1]].pair == Some(c[k])
    ensures k == 0
  {
    var before := if k > 0 then c[k - 1] else c[|c| - 1];
    assert before in live && items[before].pair == Some(c[k]);
  }

  // A chain is then a whole cycle: nobody outside points into it.
  lemma ChainIsCycle(live: set<nat>, items: seq<Item>, e: nat, x: nat)
    requires InRange(live, items) && Paired(live, items) && e in live
    requires x in live && items[x].pair.Some? && items[x].pair.value in Chain(live, items, e)
    ensures x in Chain(live, items, e)
  {
    var c := Chain(live, items, e);
    ChainLinks(live, items, e);
    var i :| 0 <= i < |c| && c[i] == items[x].pair.value;
    if i > 0 {
      assert items[c[i - 1]].pair == items[x].pair;
      assert c[i - 1] in c;
    } else {
      ChainReturns(live, items, e);
      assert c[|c| - 1] in c;
    }
  }

  lemma {:induction false} ChainAllPaired(live: set<nat>, items: seq<Item>, e: nat, i: nat)
    requires InRange(live, items) && Paired(live, items) && e in live && i < |Chain(live, items, e)|
    requires items[e].pair.Some?
    ensures Chain(live, items, e)[i] < |items| && items[Chain(live, items, e)[i]].pair.Some?
  {
    ChainLinks(live, items, e);
    var c := Chain(live, items, e);
    if i > 0 {
      ChainAllPaired(live, items, e, i - 1);
      assert c[i - 1] in c;
      assert items[c[i - 1]].pair == Some(c[i]);
    }
  }

  // ---------------------------------------------------------------------------------------
  // How the callers set them
  // ---------------------------------------------------------------------------------------

  // create_conn: an event without a pair gets a new one.
  ghost function Coupled(items: seq<Item>, a: nat, b: nat): seq<Item>
    requires a < |items| && b < |items|
  {
    var x := items[a := items[a].(pair := Some(b))];
    x[b := x[b].(pair := Some(a))]
  }

  // The UDP association: three events without pairs become a cycle.
  ghost function Ringed(items: seq<Item>, a: nat, b: nat, c: nat): seq<Item>
    requires a < |items| && b < |items| && c < |items|
  {
    var x := items[a := items[a].(pair := Some(b))];
    var y := x[b := x[b].(pair := Some(c))];
    y[c := y[c].(pair := Some(a))]
  }

  // reconnect: the client gets a new remote, and the old remote is cut loose.
  ghost function Repaired(items: seq<Item>, client: nat, former: nat, remote: nat): seq<Item>
    requires client < |items| && former < |items| && remote < |items|
  {
    var x := Coupled(items, client, remote);
    x[former := x[former].(pair := None)]
  }

  // One event, and two events, of a pool whose pair fields form cycles.
  lemma PairedAt(live: set<nat>, items: seq<Item>, e: nat)
    requires InRange(live, items) && Paired(live, items) && e in live && items[e].pair.Some?
    ensures items[e].pair.value in live && items[items[e].pair.value].pair.Some?
  {
  }

  lemma PairedOnce(live: set<nat>, items: seq<Item>, x: nat, y: nat)
    requires InRange(live, items) && Paired(live, items) && x in live && y in live
    requires items[x].pair.Some? && items[x].pair == items[y].pair
    ensures x == y
  {
  }

  lemma PairedFrom(live: set<nat>, items: seq<Item>)
    requires InRange(live, items)
    requires forall e :: e in live ==> PairsWell(live, items, e)
    requires forall x, y :: x in live && y in live ==> PairsApart(items, x, y)
    ensures Paired(live, items)
  {
  }

  ghost predicate PairsWell(live: set<nat>, items: seq<Item>, e: nat)
    requires InRange(live, items) && e in live
  {
    items[e].pair.Some? ==> items[e].pair.value in live && items[items[e].pair.value].pair.Some?
  }

  predicate PairsApart(items: seq<Item>, x: nat, y: nat)
    requires x < |items| && y < |items|
  {
    items[x].pair.Some? && items[x].pair == items[y].pair ==> x == y
  }

  // The pair fields `r` differ from `items` on `changed`, where they form cycles by themselves;
  // in `items` nobody outside `changed` points into it.
  lemma Regrouped(live: set<nat>, items: seq<Item>, r: seq<Item>, changed: set<nat>)
    requires InRange(live, items) && |r| == |items| && Paired(live, items) && changed <= live
    requires forall e :: e in live - changed ==> r[e].pair == items[e].pair
    requires forall e :: e in live - changed && items[e].pair.Some? ==> items[e].pair.value !in changed
    requires Paired(changed, r)
    ensures InRange(live, r) && Paired(live, r)
  {
    hide Paired;
    forall e | e in live ensures PairsWell(live, r, e) {
      if r[e].pair.Some? { if e in changed { PairedAt(changed, r, e); } else { PairedAt(live, items, e); } }
    }
    forall x, y | x in live && y in live ensures PairsApart(r, x, y) {
      if r[x].pair.Some? && r[x].pair == r[y].pair {
        if x in changed && y in changed { PairedOnce(changed, r, x, y); }
        else if x !in changed && y !in changed { PairedOnce(live, items, x, y); }
        else if x in changed { PairedAt(changed, r, x); } else { PairedAt(changed, r, y); }
      }
    }
    PairedFrom(live, r);
  }

  // Nobody points at an event without a pair, and at a paired one only its partner does.
  lemma NobodyPointsAt(live: set<nat>, items: seq<Item>, a: nat)
    requires InRange(live, items) && Paired(live, items) && a in live && items[a].pair.None?
    ensures forall e :: e in live && items[e].pair.Some? ==> items[e].pair.value != a
  {
  }

  // The links that create_conn, the UDP association and reconnect write form a cycle.
  lemma CoupledCycle(items: seq<Item>, a: nat, b: nat)
    requires a < |items| && b < |items| && a != b
    ensures var r := Coupled(items, a, b);
      && |r| == |items| && InRange({a, b}, r) && Paired({a, b}, r)
      && forall e :: 0 <= e < |items| && e != a && e != b ==> r[e] == items[e]
  {
    PairedFrom({a, b}, Coupled(items, a, b));
  }

  lemma RingedCycle(items: seq<Item>, a: nat, b: nat, c: nat)
    requires a < |items| && b < |items| && c < |items| && a != b && b != c && a != c
    ensures var r := Ringed(items, a, b, c);
      && |r| == |items| && InRange({a, b, c}, r) && Paired({a, b, c}, r)
      && forall e :: 0 <= e < |items| && e != a && e != b && e != c ==> r[e] == items[e]
  {
    PairedFrom({a, b, c}, Ringed(items, a, b, c));
  }

  // Only the pair fields of the three change.
  lemma RingedPairs(items: seq<Item>, a: nat, b: nat, c: nat)
    requires a < |items| && b < |items| && c < |items| && a != b && b != c && a != c
    ensures var r := Ringed(items, a, b, c);
      && |r| == |items| && (forall e :: 0 <= e < |items| ==> r[e] == items[e].(pair := r[e].pair))
      && r[a].pair == Some(b) && r[b].pair == Some(c) && r[c].pair == Some(a)
  {
  }

  lemma RepairedCycle(items: seq<Item>, a: nat, b: nat, c: nat)
    requires a < |items| && b < |items| && c < |items| && a != b && b != c && a != c
    ensures var r := Repaired(items, a, b, c);
      && |r| == |items| && InRange({a, b, c}, r) && Paired({a, b, c}, r) && r[b].pair.None?
      && forall e :: 0 <= e < |items| && e != a && e != b && e != c ==> r[e] == items[e]
  {
    PairedFrom({a, b, c}, Repaired(items, a, b, c));
  }

  lemma CoupledKeepsPairs(live: set<nat>, items: seq<Item>, a: nat, b: nat)
    requires InRange(live, items) && Paired(live, items) && a in live && b in live && a != b
    requires items[a].pair.None? && items[b].pair.None?
    ensures Paired(live, Coupled(items, a, b))
  {
    hide Paired, Coupled;
    NobodyPointsAt(live, items, a);
    NobodyPointsAt(live, items, b);
    CoupledCycle(items, a, b);
    Regrouped(live, items, Coupled(items, a, b), {a, b});
  }

  lemma RingedKeepsPairs(live: set<nat>, items: seq<Item>, a: nat, b: nat, c: nat)
    requires InRange(live, items) && Paired(live, items) && a in live && b in live && c in live
    requires a != b && b != c && a != c
    requires items[a].pair.None? && items[b].pair.None? && items[c].pair.None?
    ensures Paired(live, Ringed(items, a, b, c))
  {
    hide Paired, Ringed;
    NobodyPointsAt(live, items, a);
    NobodyPointsAt(live, items, b);
    NobodyPointsAt(live, items, c);
    RingedCycle(items, a, b, c);
    Regrouped(live, items, Ringed(items, a, b, c), {a, b, c});
  }

  lemma RepairedKeepsPairs(live: set<nat>, items: seq<Item>, client: nat, former: nat, remote: nat)
    requires InRange(live, items) && Paired(live, items) && client in live && former in live && remote in live
    requires client != former && former != remote && client != remote
    requires items[client].pair == Some(former) && items[former].pair == Some(client) && items[remote].pair.None?
    ensures Paired(live, Repaired(items, client, former, remote))
    ensures Repaired(items, client, former, remote)[former].pair.None?
  {
    hide Paired, Repaired;
    NobodyPointsAt(live, items, remote);
    forall e | e in live - {client, former, remote} && items[e].pair.Some?
      ensures items[e].pair.value !in {client, former, remote}
    {
      if items[e].pair == Some(client) { PairedOnce(live, items, e, former); }
      if items[e].pair == Some(former) { PairedOnce(live, items, e, client); }
    }
    RepairedCycle(items, client, former, remote);
    Regrouped(live, items, Repaired(items, client, former, remote), {client, former, remote});
  }

  lemma SamePairs(live: set<nat>, a: seq<Item>, b: seq<Item>)
    requires InRange(live, a) && |a| == |b| && Paired(live, a) && forall e :: e in live ==> b[e].pair == a[e].pair
    ensures InRange(live, b) && Paired(live, b)
  {
  }
}
