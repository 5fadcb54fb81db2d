// The intrusive timer list of byedpi/conev.c.

module TimerList {
  import opened Common
  import opened Events

  // The links from tv_start to tv_end and back spell out `timers`, in order of deadline.
  ghost predicate TimersOk(items: seq<Item>, timers: seq<nat>, start: Option<nat>, end: Option<nat>) {
    && Distinct(timers)
    && start == At(timers, 0) && end == At(timers, |timers| - 1)
    && (forall i :: 0 <= i < |timers| ==> timers[i] < |items|)
    && (forall i :: 0 <= i < |timers| ==> NodeOk(items, timers, i))
    && InOrder(items, timers)
  }

  // Deadlines do not decrease.
  ghost predicate InOrder(items: seq<Item>, timers: seq<nat>)
    requires forall i :: 0 <= i < |timers| ==> timers[i] < |items|
  {
    forall i, j :: 0 <= i < j < |timers| ==> items[timers[i]].tvMs <= items[timers[j]].tvMs
  }

  lemma OrderKept(a: seq<Item>, b: seq<Item>, timers: seq<nat>)
    requires forall i :: 0 <= i < |timers| ==> timers[i] < |a| && timers[i] < |b|
    requires forall i :: 0 <= i < |timers| ==> b[timers[i]].tvMs == a[timers[i]].tvMs
    requires InOrder(a, timers)
    ensures InOrder(b, timers)
  {
  }

  predicate NodeOk(items: seq<Item>, timers: seq<nat>, i: nat)
    requires i < |timers|
  {
    && timers[i] < |items|
    && items[timers[i]].tvNext == At(timers, i + 1)
    && items[timers[i]].tvPrev == At(timers, i - 1)
    && items[timers[i]].tvMs != 0
  }

  // Items outside the list do not matter to it.
  lemma TimersElsewhere(a: seq<Item>, b: seq<Item>, timers: seq<nat>, start: Option<nat>, end: Option<nat>)
    requires TimersOk(a, timers, start, end) && |a| == |b|
    requires forall e :: e in timers ==> a[e] == b[e]
    ensures TimersOk(b, timers, start, end)
  {
    forall i | 0 <= i < |timers| ensures NodeOk(b, timers, i) {
      assert timers[i] in timers && NodeOk(a, timers, i);
    }
    assert forall i :: 0 <= i < |timers| ==> timers[i] in timers;
  }

  // Nothing but timer fields differ, and those only when `may`.
  predicate TimerFieldsOnly(a: Item, b: Item, may: bool) {
    if may then b == a.(tvMs := b.tvMs, tvNext := b.tvNext, tvPrev := b.tvPrev) else b == a
  }

  function CutAt(s: seq<nat>, k: nat): seq<nat>
    requires k < |s|
  {
    s[..k] + s[k + 1..]
  }

  function PutAt(s: seq<nat>, k: nat, x: nat): seq<nat>
    requires k <= |s|
  {
    s[..k] + [x] + s[k..]
  }

  // Linking `val` in between positions k - 1 and k.
  function LinkIn(items: seq<Item>, val: nat, prev: Option<nat>, next: Option<nat>): seq<Item>
    requires val < |items| && (prev.Some? ==> prev.value < |items|) && (next.Some? ==> next.value < |items|)
  {
    var a := items[val := items[val].(tvNext := next, tvPrev := prev)];
    var b := if next.Some? then a[next.value := a[next.value].(tvPrev := Some(val))] else a;
    if prev.Some? then b[prev.value := b[prev.value].(tvNext := Some(val))] else b
  }

  // The fields of each item after linking in.
  lemma LinkInFields(items: seq<Item>, val: nat, prev: Option<nat>, next: Option<nat>, e: nat)
    requires val < |items| && (prev.Some? ==> prev.value < |items|) && (next.Some? ==> next.value < |items|)
    requires prev != Some(val) && next != Some(val) && (prev.None? || prev != next) && e < |items|
    ensures var r := LinkIn(items, val, prev, next);
      && |r| == |items|
      && r[e] == if e == val then items[e].(tvNext := next, tvPrev := prev)
                 else if Some(e) == next then items[e].(tvPrev := Some(val))
                 else if Some(e) == prev then items[e].(tvNext := Some(val))
                 else items[e]
  {
  }

  lemma LinkInFrame(items: seq<Item>, timers: seq<nat>, val: nat, k: nat)
    requires Distinct(timers) && val < |items| && val !in timers && k <= |timers|
    requires forall i :: 0 <= i < |timers| ==> timers[i] < |items|
    ensures var r := LinkIn(items, val, At(timers, k - 1), At(timers, k));
      && |r| == |items|
      && forall e :: 0 <= e < |items| ==> TimerFieldsOnly(items[e], r[e], e in timers || e == val)
  {
    var prev, next := At(timers, k - 1), At(timers, k);
    LinkInFields(items, val, prev, next, val);
    forall e | 0 <= e < |items|
      ensures TimerFieldsOnly(items[e], LinkIn(items, val, prev, next)[e], e in timers || e == val)
    {
      LinkInFields(items, val, prev, next, e);
    }
  }

  lemma LinkInOk(items: seq<Item>, timers: seq<nat>, start: Option<nat>, end: Option<nat>, val: nat, k: nat)
    requires TimersOk(items, timers, start, end) && val < |items| && val !in timers && k <= |timers|
    requires items[val].tvMs != 0
    requires k > 0 ==> items[timers[k - 1]].tvMs <= items[val].tvMs
    requires k < |timers| ==> items[val].tvMs <= items[timers[k]].tvMs
    ensures TimersOk(LinkIn(items, val, At(timers, k - 1), At(timers, k)), PutAt(timers, k, val),
                     if k == 0 then Some(val) else start, if k == |timers| then Some(val) else end)
  {
    hide InOrder, NodeOk, LinkIn;
    var r := LinkIn(items, val, At(timers, k - 1), At(timers, k));
    var put := PutAt(timers, k, val);
    PutIs(timers, k, val);
    LinkInSorted(items, timers, start, end, val, k);
    forall i | 0 <= i < |put|
      ensures put[i] < |items| == |r| && NodeOk(r, put, i) && r[put[i]].tvMs == items[put[i]].tvMs
    {
      LinkInNode(items, timers, start, end, val, k, i);
    }
    OrderKept(items, r, put);
  }

  lemma LinkInNode(items: seq<Item>, timers: seq<nat>, start: Option<nat>, end: Option<nat>, val: nat, k: nat, i: nat)
    requires TimersOk(items, timers, start, end) && val < |items| && val !in timers && k <= |timers|
    requires items[val].tvMs != 0 && i <= |timers|
    ensures var r := LinkIn(items, val, At(timers, k - 1), At(timers, k));
      var put := PutAt(timers, k, val);
      && put[i] < |items| == |r| && NodeOk(r, put, i) && r[put[i]].tvMs == items[put[i]].tvMs
  {
    hide InOrder, LinkIn;
    var prev, next := At(timers, k - 1), At(timers, k);
    var put := PutAt(timers, k, val);
    PutIs(timers, k, val);
    hide PutAt;
    var j := if i <= k then i else i - 1;
    assert i != k ==> NodeOk(items, timers, j) && put[i] == timers[j];
    LinkInFields(items, val, prev, next, put[i]);
  }

  lemma PutIs(s: seq<nat>, k: nat, x: nat)
    requires k <= |s| && x !in s && Distinct(s)
    ensures var p := PutAt(s, k, x);
      && Distinct(p) && |p| == |s| + 1 && p[k] == x
      && (forall i :: 0 <= i < k ==> p[i] == s[i]) && (forall i :: k < i < |p| ==> p[i] == s[i - 1])
      && forall y :: y in p <==> y in s || y == x
  {
    var p := PutAt(s, k, x);
    PutAtEach(s, k, x);
    assert p[k] == x;
    hide PutAt;
    assert forall i :: 0 <= i < |s| ==> s[i] in s;
    forall y | y in s ensures y in p {
      var i :| 0 <= i < |s| && s[i] == y;
      assert p[if i < k then i else i + 1] == y;
    }
  }

  lemma PutAtEach(s: seq<nat>, k: nat, x: nat)
    requires k <= |s|
    ensures var p := PutAt(s, k, x);
      && |p| == |s| + 1 && p[k] == x
      && (forall i :: 0 <= i < k ==> p[i] == s[i]) && (forall i :: k < i < |p| ==> p[i] == s[i - 1])
  {
  }

  lemma LinkInSorted(items: seq<Item>, timers: seq<nat>, start: Option<nat>, end: Option<nat>, val: nat, k: nat)
    requires TimersOk(items, timers, start, end) && val < |items| && val !in timers && k <= |timers|
    requires k > 0 ==> NodeOk(items, timers, k - 1) && items[timers[k - 1]].tvMs <= items[val].tvMs
    requires k < |timers| ==> NodeOk(items, timers, k) && items[val].tvMs <= items[timers[k]].tvMs
    ensures var put := PutAt(timers, k, val);
      && (forall i :: 0 <= i < |put| ==> put[i] < |items|)
      && InOrder(items, put)
  {
    hide PutAt, NodeOk;
    var put := PutAt(timers, k, val);
    PutIs(timers, k, val);
    forall i, j | 0 <= i < j < |put| ensures items[put[i]].tvMs <= items[put[j]].tvMs {
      var x, y := if i < k then i else i - 1, if j < k then j else j - 1;
      assert i != k && j != k ==> items[timers[x]].tvMs <= items[timers[y]].tvMs;
      assert i == k ==> items[timers[k]].tvMs <= items[timers[y]].tvMs;
      assert j == k ==> items[timers[x]].tvMs <= items[timers[k - 1]].tvMs;
    }
  }

  // Taking `val` out of the links.
  function LinkOut(items: seq<Item>, val: nat): seq<Item>
    requires val < |items|
    requires items[val].tvPrev.Some? ==> items[val].tvPrev.value < |items|
    requires items[val].tvNext.Some? ==> items[val].tvNext.value < |items|
  {
    var prev, next := items[val].tvPrev, items[val].tvNext;
    var a := if prev.Some? then items[prev.value := items[prev.value].(tvNext := next)] else items;
    var b := if next.Some? then a[next.value := a[next.value].(tvPrev := prev)] else a;
    b[val := b[val].(tvMs := 0, tvNext := None, tvPrev := None)]
  }

  lemma LinkOutFields(items: seq<Item>, val: nat, e: nat)
    requires val < |items| && e < |items|
    requires items[val].tvPrev.Some? ==> items[val].tvPrev.value < |items|
    requires items[val].tvNext.Some? ==> items[val].tvNext.value < |items|
    requires items[val].tvPrev != Some(val) && items[val].tvNext != Some(val)
    requires items[val].tvPrev.None? || items[val].tvPrev != items[val].tvNext
    ensures var r := LinkOut(items, val);
      && |r| == |items|
      && r[e] == if e == val then items[e].(tvMs := 0, tvNext := None, tvPrev := None)
                 else if Some(e) == items[val].tvNext then items[e].(tvPrev := items[val].tvPrev)
                 else if Some(e) == items[val].tvPrev then items[e].(tvNext := items[val].tvNext)
                 else items[e]
  {
  }

  lemma CutIs(s: seq<nat>, k: nat)
    requires k < |s| && Distinct(s)
    ensures var c := CutAt(s, k);
      && Distinct(c) && |c| == |s| - 1
      && (forall i :: 0 <= i < k ==> c[i] == s[i]) && (forall i :: k <= i < |c| ==> c[i] == s[i + 1])
      && forall y :: y in c <==> y in s && y != s[k]
  {
    var c := CutAt(s, k);
    forall y | y in s && y != s[k] ensures y in c {
      var i :| 0 <= i < |s| && s[i] == y;
      assert i < k ==> c[i] == y;
      assert i > k ==> c[i - 1] == y;
    }
  }

  lemma NextToEachOther(items: seq<Item>, timers: seq<nat>, start: Option<nat>, end: Option<nat>, k: nat)
    requires TimersOk(items, timers, start, end) && k < |timers|
    ensures NodeOk(items, timers, k)
    ensures var prev, next := items[timers[k]].tvPrev, items[timers[k]].tvNext;
      && prev == At(timers, k - 1) && next == At(timers, k + 1)
      && (prev.Some? ==> prev.value < |items|) && (next.Some? ==> next.value < |items|)
      && prev != Some(timers[k]) && next != Some(timers[k]) && (prev.None? || prev != next)
  {
    assert NodeOk(items, timers, k);
  }

  lemma LinkOutFrame(items: seq<Item>, timers: seq<nat>, start: Option<nat>, end: Option<nat>, k: nat)
    requires TimersOk(items, timers, start, end) && k < |timers|
    ensures NodeOk(items, timers, k)
    ensures var prev, next := items[timers[k]].tvPrev, items[timers[k]].tvNext;
      (prev.Some? ==> prev.value < |items|) && (next.Some? ==> next.value < |items|)
    ensures var r := LinkOut(items, timers[k]);
      && |r| == |items| && r[timers[k]] == items[timers[k]].(tvMs := 0, tvNext := None, tvPrev := None)
      && forall e :: 0 <= e < |items| ==> TimerFieldsOnly(items[e], r[e], e in timers)
  {
    NextToEachOther(items, timers, start, end, k);
    hide LinkOut, InOrder, NodeOk;
    LinkOutFields(items, timers[k], timers[k]);
    forall e | 0 <= e < |items| ensures TimerFieldsOnly(items[e], LinkOut(items, timers[k])[e], e in timers) {
      LinkOutFields(items, timers[k], e);
    }
  }

  lemma LinkOutOk(items: seq<Item>, timers: seq<nat>, start: Option<nat>, end: Option<nat>, k: nat)
    requires TimersOk(items, timers, start, end) && k < |timers|
    requires NodeOk(items, timers, k)
    requires var prev, next := items[timers[k]].tvPrev, items[timers[k]].tvNext;
      (prev.Some? ==> prev.value < |items|) && (next.Some? ==> next.value < |items|)
    ensures TimersOk(LinkOut(items, timers[k]), CutAt(timers, k),
      if k == 0 then items[timers[k]].tvNext else start,
      if k == |timers| - 1 then items[timers[k]].tvPrev else end)
  {
    hide InOrder, LinkOut, NodeOk, CutAt;
    var r := LinkOut(items, timers[k]);
    var cut := CutAt(timers, k);
    CutIs(timers, k);
    CutSorted(items, timers, k);
    CutEnds(items, timers, start, end, k);
    LinkOutNodes(items, timers, start, end, k);
    OrderKept(items, r, cut);
  }

  lemma LinkOutNodes(items: seq<Item>, timers: seq<nat>, start: Option<nat>, end: Option<nat>, k: nat)
    requires TimersOk(items, timers, start, end) && k < |timers| && NodeOk(items, timers, k)
    requires var prev, next := items[timers[k]].tvPrev, items[timers[k]].tvNext;
      (prev.Some? ==> prev.value < |items|) && (next.Some? ==> next.value < |items|)
    ensures var r := LinkOut(items, timers[k]);
      var cut := CutAt(timers, k);
      && |cut| == |timers| - 1
      && forall i :: 0 <= i < |cut| ==>
        cut[i] < |items| == |r| && NodeOk(r, cut, i) && r[cut[i]].tvMs == items[cut[i]].tvMs
  {
    hide LinkOut, InOrder;
    var r := LinkOut(items, timers[k]);
    hide TimersOk, NodeOk;
    var cut := CutAt(timers, k);
    forall i | 0 <= i < |cut|
      ensures cut[i] < |items| == |r| && NodeOk(r, cut, i) && r[cut[i]].tvMs == items[cut[i]].tvMs
    {
      LinkOutNode(items, timers, start, end, k, i);
    }
  }

  lemma CutEnds(items: seq<Item>, timers: seq<nat>, start: Option<nat>, end: Option<nat>, k: nat)
    requires TimersOk(items, timers, start, end) && k < |timers|
    ensures var cut := CutAt(timers, k);
      && (if k == 0 then items[timers[k]].tvNext else start) == At(cut, 0)
      && (if k == |timers| - 1 then items[timers[k]].tvPrev else end) == At(cut, |cut| - 1)
  {
    NextToEachOther(items, timers, start, end, k);
  }

  lemma CutSorted(items: seq<Item>, timers: seq<nat>, k: nat)
    requires (forall i :: 0 <= i < |timers| ==> timers[i] < |items|) && InOrder(items, timers)
    requires k < |timers| && Distinct(timers)
    ensures var cut := CutAt(timers, k);
      (forall i :: 0 <= i < |cut| ==> cut[i] < |items|) && InOrder(items, cut)
  {
    var cut := CutAt(timers, k);
    CutIs(timers, k);
    forall i, j | 0 <= i < j < |cut| ensures items[cut[i]].tvMs <= items[cut[j]].tvMs {
      var x, y := if i < k then i else i + 1, if j < k then j else j + 1;
      assert items[timers[x]].tvMs <= items[timers[y]].tvMs;
    }
  }

  lemma LinkOutNode(items: seq<Item>, timers: seq<nat>, start: Option<nat>, end: Option<nat>, k: nat, i: nat)
    requires TimersOk(items, timers, start, end) && k < |timers| && i < |timers| - 1
    requires NodeOk(items, timers, k)
    ensures var val := timers[k];
      var cut := CutAt(timers, k);
      var r := LinkOut(items, val);
      && cut[i] < |items| == |r| && NodeOk(r, cut, i) && r[cut[i]].tvMs == items[cut[i]].tvMs
  {
    hide InOrder, LinkOut;
    var val := timers[k];
    var cut := CutAt(timers, k);
    CutIs(timers, k);
    hide CutAt;
    var j := if i < k then i else i + 1;
    assert NodeOk(items, timers, j) && cut[i] == timers[j];
    LinkOutFields(items, val, cut[i]);
  }
}
