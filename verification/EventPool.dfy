// The event pool (byedpi/conev.c, the epoll build).
//
// Events live in a fixed array of items and are named by their index in it.  `links` is a
// permutation of the items whose first `count` entries are the live events.

module EventPool {
  import opened Common
  import opened Events
  import opened EventPairs
  import opened TimerList

  const POLLTIMEOUT: int := 0

  // ---------------------------------------------------------------------------------------
  // The pool as a value
  // ---------------------------------------------------------------------------------------

  // An entry of the array epoll_wait fills in.
  datatype PEvent = PEvent(ev: nat, events: int)

  // What epoll_wait does: deliver a batch, report that time ran out, or fail.
  datatype Wait = Ready(batch: seq<PEvent>) | TimedOut | Failed

  // What may differ between a live event before and after something else is deleted.
  predicate SameEvent(a: Item, b: Item) {
    a.fd == b.fd && a.modIter == b.modIter && a.pair == b.pair && a.tvMs == b.tvMs
  }

  // The pool's fields, the timer list in order, and the events added or deleted since the
  // current batch began.
  datatype State = State(
    max: nat, count: nat, links: seq<nat>, items: seq<Item>, iters: nat,
    tvStart: Option<nat>, tvEnd: Option<nat>, pevents: seq<PEvent>,
    timers: seq<nat>, touched: set<nat>)

  // links is a permutation of the items, and a live event knows its place in it.
  ghost predicate SlotsOk(s: State) {
    && |s.links| == s.max && |s.items| == s.max && s.count <= s.max
    && Distinct(s.links) && (forall i :: 0 <= i < s.max ==> s.links[i] < s.max)
    && forall i :: 0 <= i < s.count ==> s.items[s.links[i]].index == i
  }

  ghost function Live(s: State): set<nat>
    requires SlotsOk(s)
  {
    Members(s.links[..s.count])
  }

  // The timer list holds exactly the live events with a deadline, once each.
  ghost predicate TimedOk(s: State)
    requires SlotsOk(s)
  {
    && TimersOk(s.items, s.timers, s.tvStart, s.tvEnd)
    && (forall e :: e in s.timers ==> e in Live(s))
    && forall e :: e in Live(s) ==> TimedItem(s.items[e], e in s.timers)
  }

  predicate TimedItem(i: Item, listed: bool) {
    (listed <==> i.tvMs != 0) && (!listed ==> i.tvNext.None? && i.tvPrev.None?)
  }

  // A live event is registered and points at no event, at another live one or at one of `gone`;
  // its modIter is the current iteration exactly when it has been touched.
  predicate LiveItem(self: nat, i: Item, iters: nat, touched: bool, targets: set<nat>) {
    && i.pair != Some(self)
    && i.fd > 0 && i.modIter <= iters && (i.modIter == iters <==> touched)
    && (i.pair.Some? ==> i.pair.value in targets)
  }

  ghost predicate LiveOk(s: State, gone: set<nat>)
    requires SlotsOk(s)
  {
    forall e :: e in Live(s) ==> LiveItem(e, s.items[e], s.iters, e in s.touched, Live(s) + gone)
  }

  // Every event of the current batch is live or has been touched since.
  ghost predicate BatchOk(s: State)
    requires SlotsOk(s)
  {
    && (forall e :: e in s.touched ==> e < s.max && s.items[e].modIter == s.iters)
    && |s.pevents| <= s.max
    && forall i :: 0 <= i < |s.pevents| ==> s.pevents[i].ev in Live(s) + s.touched
  }

  ghost predicate GoneOk(s: State, gone: set<nat>)
    requires SlotsOk(s)
  {
    forall e :: e in gone ==> e < s.max && s.items[e].fd == -1 && e !in Live(s)
  }

  // What holds while the events `gone` are being deleted.
  ghost predicate InvBut(s: State, gone: set<nat>) {
    SlotsOk(s) && TimedOk(s) && LiveOk(s, gone) && BatchOk(s) && GoneOk(s, gone)
  }

  ghost predicate Inv(s: State) {
    InvBut(s, {})
  }

  lemma LiveInRange(s: State)
    requires SlotsOk(s)
    ensures forall e :: e in Live(s) ==> e < s.max
    ensures InRange(Live(s), s.items)
  {
  }

  // --- add_event ---

  ghost function Added(s: State, fd: int, registered: bool): State
    requires SlotsOk(s) && s.count < s.max
  {
    var val := s.links[s.count];
    s.(items := s.items[val := Item(fd, s.count, s.iters, 0, None, None, None)],
       touched := s.touched + {val}, count := if registered then s.count + 1 else s.count)
  }

  lemma AddedSlots(s: State, fd: int, registered: bool)
    requires SlotsOk(s) && s.count < s.max
    ensures SlotsOk(Added(s, fd, registered))
    ensures s.links[s.count] !in Live(s) && s.links[s.count] < s.max
    ensures Live(Added(s, fd, registered)) == if registered then Live(s) + {s.links[s.count]} else Live(s)
  {
    assert s.links[..s.count + 1] == s.links[..s.count] + [s.links[s.count]];
  }

  lemma AddedInv(s: State, fd: int, registered: bool)
    requires Inv(s) && s.count < s.max && fd > 0
    ensures Inv(Added(s, fd, registered))
  {
    AddedSlots(s, fd, registered);
    AddedTimed(s, fd, registered);
    AddedLive(s, fd, registered);
    hide SlotsOk, Live, Added, TimedOk, LiveOk, BatchOk;
  }

  lemma AddedTimed(s: State, fd: int, registered: bool)
    requires SlotsOk(s) && TimedOk(s) && s.count < s.max && SlotsOk(Added(s, fd, registered))
    ensures TimedOk(Added(s, fd, registered))
  {
    AddedSlots(s, fd, registered);
    LiveInRange(s);
    LiveInRange(Added(s, fd, registered));
    var t, val := Added(s, fd, registered), s.links[s.count];
    hide Live, SlotsOk, TimersOk;
    TimersElsewhere(s.items, t.items, s.timers, s.tvStart, s.tvEnd);
    forall e | e in Live(t) ensures TimedItem(t.items[e], e in t.timers) {
      assert e != val ==> TimedItem(s.items[e], e in s.timers);
    }
  }

  lemma AddedLive(s: State, fd: int, registered: bool)
    requires Inv(s) && s.count < s.max && fd > 0 && SlotsOk(Added(s, fd, registered))
    ensures LiveOk(Added(s, fd, registered), {}) && BatchOk(Added(s, fd, registered))
  {
    AddedSlots(s, fd, registered);
    LiveInRange(s);
    LiveInRange(Added(s, fd, registered));
    var t, val := Added(s, fd, registered), s.links[s.count];
    hide Live, SlotsOk, TimedOk;
    forall e | e in Live(t) ensures LiveItem(e, t.items[e], t.iters, e in t.touched, Live(t) + {}) {
      assert e != val ==> LiveItem(e, s.items[e], s.iters, e in s.touched, Live(s) + {});
    }
  }

  // --- remove_timer ---

  ghost predicate LinksInRange(items: seq<Item>, val: nat) {
    && val < |items|
    && (items[val].tvPrev.Some? ==> items[val].tvPrev.value < |items|)
    && (items[val].tvNext.Some? ==> items[val].tvNext.value < |items|)
  }

  function Omit(s: seq<nat>, x: nat): seq<nat> {
    if s == [] then [] else if s[0] == x then s[1..] else [s[0]] + Omit(s[1..], x)
  }

  lemma {:induction false} OmitIsCut(s: seq<nat>, k: nat)
    requires Distinct(s) && k < |s|
    ensures Omit(s, s[k]) == CutAt(s, k)
  {
    if k > 0 {
      OmitIsCut(s[1..], k - 1);
      assert CutAt(s, k) == [s[0]] + CutAt(s[1..], k - 1);
    }
  }

  lemma {:induction false} OmitAbsent(s: seq<nat>, x: nat)
    requires x !in s
    ensures Omit(s, x) == s
  {
    if s != [] { OmitAbsent(s[1..], x); }
  }

  ghost function Untimed(s: State, val: nat): State
    requires LinksInRange(s.items, val)
  {
    s.(items := LinkOut(s.items, val),
       tvStart := if s.tvStart == Some(val) then s.items[val].tvNext else s.tvStart,
       tvEnd := if s.tvEnd == Some(val) then s.items[val].tvPrev else s.tvEnd,
       timers := Omit(s.timers, val))
  }

  // Of the items only timer fields change, and of live events other than `val` only links.
  lemma UntimedTimers(s: State, val: nat)
    requires SlotsOk(s) && TimedOk(s) && val in Live(s)
    ensures LinksInRange(s.items, val)
    ensures var t := Untimed(s, val);
      && TimersOk(t.items, t.timers, t.tvStart, t.tvEnd)
      && (forall e :: e in t.timers <==> e in s.timers && e != val)
      && |t.items| == |s.items|
      && (forall e :: 0 <= e < s.max ==> TimerFieldsOnly(s.items[e], t.items[e], e in s.timers))
      && TimedItem(t.items[val], false)
  {
    assert TimedItem(s.items[val], val in s.timers);
    if val in s.timers {
      var k :| 0 <= k < |s.timers| && s.timers[k] == val;
      UntimedListed(s, k);
    } else {
      OmitAbsent(s.timers, val);
      assert LinkOut(s.items, val) == s.items;
      assert s.tvStart != Some(val) && s.tvEnd != Some(val);
      hide TimersOk;
    }
  }

  lemma UntimedListed(s: State, k: nat)
    requires TimersOk(s.items, s.timers, s.tvStart, s.tvEnd) && k < |s.timers| && |s.items| == s.max
    ensures LinksInRange(s.items, s.timers[k])
    ensures var val := s.timers[k];
      var t := Untimed(s, val);
      && TimersOk(t.items, t.timers, t.tvStart, t.tvEnd)
      && (forall e :: e in t.timers <==> e in s.timers && e != val)
      && |t.items| == |s.items|
      && (forall e :: 0 <= e < s.max ==> TimerFieldsOnly(s.items[e], t.items[e], e in s.timers))
      && TimedItem(t.items[val], false)
  {
    hide NodeOk, InOrder, LinkOut, Omit, CutAt;
    LinkOutFrame(s.items, s.timers, s.tvStart, s.tvEnd, k);
    LinkOutOk(s.items, s.timers, s.tvStart, s.tvEnd, k);
    OmitIsCut(s.timers, k);
    CutIs(s.timers, k);
    EndsAt(s, k);
    hide TimersOk;
  }

  lemma EndsAt(s: State, k: nat)
    requires TimersOk(s.items, s.timers, s.tvStart, s.tvEnd) && k < |s.timers|
    ensures s.tvStart == Some(s.timers[k]) <==> k == 0
    ensures s.tvEnd == Some(s.timers[k]) <==> k == |s.timers| - 1
  {
  }

  // The deadlines of the other events stay.
  lemma UntimedMs(s: State, val: nat, e: nat)
    requires SlotsOk(s) && TimedOk(s) && val in Live(s) && e < s.max && e != val
    requires LinksInRange(s.items, val)
    ensures LinkOut(s.items, val)[e].tvMs == s.items[e].tvMs
  {
  }

  lemma UntimedInv(s: State, val: nat, gone: set<nat>)
    requires InvBut(s, gone) && val in Live(s)
    ensures LinksInRange(s.items, val)
    ensures InvBut(Untimed(s, val), gone) && Live(Untimed(s, val)) == Live(s)
    ensures forall e :: e in Live(s) ==>
      var t := Untimed(s, val);
      t.items[e] == s.items[e].(tvMs := t.items[e].tvMs, tvNext := t.items[e].tvNext, tvPrev := t.items[e].tvPrev)
  {
    hide SlotsOk, Live, LinksInRange, Untimed;
    UntimedSlots(s, val);
    UntimedTimed(s, val);
    UntimedLive(s, val, gone);
    hide TimedOk, LiveOk, BatchOk, GoneOk;
  }

  lemma UntimedSlots(s: State, val: nat)
    requires SlotsOk(s) && TimedOk(s) && val in Live(s)
    ensures LinksInRange(s.items, val)
    ensures SlotsOk(Untimed(s, val)) && Live(Untimed(s, val)) == Live(s)
    ensures forall e :: e in Live(s) ==>
      var t := Untimed(s, val);
      && e < |s.items| == |t.items|
      && t.items[e] == s.items[e].(tvMs := t.items[e].tvMs, tvNext := t.items[e].tvNext, tvPrev := t.items[e].tvPrev)
  {
    hide LinkOut, TimersOk;
    UntimedTimers(s, val);
    LiveInRange(s);
  }

  lemma UntimedTimed(s: State, val: nat)
    requires SlotsOk(s) && TimedOk(s) && val in Live(s)
    requires LinksInRange(s.items, val)
    requires SlotsOk(Untimed(s, val)) && Live(Untimed(s, val)) == Live(s)
    ensures TimedOk(Untimed(s, val))
  {
    hide LinkOut, TimersOk, SlotsOk, Live, LinksInRange;
    UntimedTimers(s, val);
    LiveInRange(s);
    var t := Untimed(s, val);
    forall e | e in Live(t) ensures TimedItem(t.items[e], e in t.timers) {
      assert TimerFieldsOnly(s.items[e], t.items[e], e in s.timers) && TimedItem(s.items[e], e in s.timers);
      if e != val {
        UntimedMs(s, val, e);
      }
    }
  }

  lemma UntimedLive(s: State, val: nat, gone: set<nat>)
    requires InvBut(s, gone) && val in Live(s)
    requires LinksInRange(s.items, val)
    requires SlotsOk(Untimed(s, val)) && Live(Untimed(s, val)) == Live(s)
    ensures LiveOk(Untimed(s, val), gone) && BatchOk(Untimed(s, val)) && GoneOk(Untimed(s, val), gone)
  {
    hide LinkOut, TimersOk, SlotsOk, Live, LinksInRange;
    UntimedTimers(s, val);
    LiveInRange(s);
  }

  // --- del_event, without the pair ---

  function Close(i: Item, iters: nat): Item {
    i.(fd := -1, modIter := iters)
  }

  // Closing and taking out of the timer list touch different fields.
  lemma CloseCommutes(items: seq<Item>, val: nat, iters: nat)
    requires LinksInRange(items, val)
    requires items[val].tvPrev != Some(val) && items[val].tvNext != Some(val)
    ensures LinksInRange(items[val := Close(items[val], iters)], val)
    ensures LinkOut(items[val := Close(items[val], iters)], val)
      == LinkOut(items, val)[val := Close(LinkOut(items, val)[val], iters)]
  {
  }

  lemma KnowsPlace(s: State, val: nat)
    requires SlotsOk(s) && val in Live(s)
    ensures val < s.max && 0 <= s.items[val].index < s.count && s.links[s.items[val].index] == val
  {
    var i :| 0 <= i < s.count && s.links[i] == val;
  }

  // The event trades places with the last live one and falls off the end of the prefix.
  ghost function SwappedOut(s: State, val: nat): State
    requires 0 < s.count <= |s.links| && val < |s.items| && s.links[s.count - 1] < |s.items|
    requires 0 <= s.items[val].index < s.count
  {
    var last, index := s.links[s.count - 1], s.items[val].index;
    s.(count := s.count - 1,
       links := s.links[index := last][s.count - 1 := val],
       items := if last == val then s.items else s.items[last := s.items[last].(index := index)])
  }

  ghost function Dropped(s: State, val: nat): State
    requires SlotsOk(s) && val in Live(s)
  {
    KnowsPlace(s, val);
    SwappedOut(s.(items := s.items[val := Close(s.items[val], s.iters)], touched := s.touched + {val}), val)
  }

  // Moving the last of the first n elements to position i, and the element there to the end.
  function Trade(s: seq<nat>, i: nat, n: nat): seq<nat>
    requires i < n <= |s|
  {
    s[i := s[n - 1]][n - 1 := s[i]]
  }

  lemma TradeIs(s: seq<nat>, i: nat, n: nat)
    requires i < n <= |s| && Distinct(s)
    ensures Distinct(Trade(s, i, n))
    ensures Members(Trade(s, i, n)[..n - 1]) == Members(s[..n]) - {s[i]}
  {
    var t := Trade(s, i, n);
    forall e | e in Members(s[..n]) - {s[i]} ensures e in Members(t[..n - 1]) {
      var j :| 0 <= j < n && s[j] == e;
      assert t[if j == n - 1 then i else j] == e;
    }
    forall e | e in Members(t[..n - 1]) ensures e in Members(s[..n]) - {s[i]} {
      var j :| 0 <= j < n - 1 && t[j] == e;
      assert s[if j == i then n - 1 else j] == e;
    }
  }

  lemma DroppedLive(s: State, val: nat)
    requires SlotsOk(s) && val in Live(s)
    ensures SlotsOk(Dropped(s, val)) && Live(Dropped(s, val)) == Live(s) - {val}
  {
    KnowsPlace(s, val);
    var t := Dropped(s, val);
    var index := s.items[val].index;
    TradeIs(s.links, index, s.count);
    assert t.links == Trade(s.links, index, s.count);
    forall i | 0 <= i < s.max ensures t.links[i] < s.max {}
    forall i | 0 <= i < t.count ensures t.items[t.links[i]].index == i {
      assert i != index ==> t.links[i] == s.links[i] && s.items[s.links[i]].index == i;
    }
  }

  lemma DroppedSlots(s: State, val: nat)
    requires SlotsOk(s) && val in Live(s)
    ensures SlotsOk(Dropped(s, val)) && Live(Dropped(s, val)) == Live(s) - {val}
    ensures |Dropped(s, val).items| == s.max && val < s.max && InRange(Live(s), s.items)
    ensures forall e :: e in Live(s) && e != val ==>
      Dropped(s, val).items[e] == s.items[e].(index := Dropped(s, val).items[e].index)
    ensures forall e :: 0 <= e < s.max && e !in Live(s) ==> Dropped(s, val).items[e] == s.items[e]
    ensures Dropped(s, val).items[val] == Close(s.items[val], s.iters)
  {
    DroppedLive(s, val);
    KnowsPlace(s, val);
    assert s.links[s.count - 1] in Live(s) by { assert s.links[..s.count][s.count - 1] == s.links[s.count - 1]; }
  }

  lemma DroppedInv(s: State, val: nat, gone: set<nat>)
    requires InvBut(s, gone) && val in Live(s) && val !in s.timers
    ensures InvBut(Dropped(s, val), gone + {val})
    ensures Live(Dropped(s, val)) == Live(s) - {val}
  {
    DroppedSlots(s, val);
    DroppedKeeps(s, val);
    DroppedBatch(s, val, gone);
    LiveInRange(s);
    var t := Dropped(s, val);
    hide Dropped, SlotsOk, Live, BatchOk, GoneOk;
    assert TimersOk(t.items, t.timers, t.tvStart, t.tvEnd) by {
      TimersIgnoreIndex(s, t, val);
    }
    forall e | e in Live(t) ensures TimedItem(t.items[e], e in t.timers) {
      assert TimedItem(s.items[e], e in s.timers);
    }
    forall e | e in Live(t) ensures LiveItem(e, t.items[e], t.iters, e in t.touched, Live(t) + (gone + {val})) {
      assert LiveItem(e, s.items[e], s.iters, e in s.touched, Live(s) + gone);
    }
  }

  lemma DroppedBatch(s: State, val: nat, gone: set<nat>)
    requires InvBut(s, gone) && val in Live(s)
    ensures SlotsOk(Dropped(s, val)) && BatchOk(Dropped(s, val)) && GoneOk(Dropped(s, val), gone + {val})
  {
    DroppedSlots(s, val);
    DroppedKeeps(s, val);
    LiveInRange(s);
    var t := Dropped(s, val);
    hide Dropped, SlotsOk, Live, TimedOk;
    forall e | e in t.touched ensures e < t.max && t.items[e].modIter == t.iters {
      assert e != val ==> e < s.max && s.items[e].modIter == s.iters;
    }
    assert Live(t) + t.touched == Live(s) + t.touched;
  }

  lemma DroppedKeeps(s: State, val: nat)
    requires SlotsOk(s) && val in Live(s)
    ensures var t := Dropped(s, val);
      && t.iters == s.iters && t.pevents == s.pevents && t.touched == s.touched + {val} && t.max == s.max
      && t.timers == s.timers && t.tvStart == s.tvStart && t.tvEnd == s.tvEnd
  {
  }

  lemma TimersIgnoreIndex(s: State, t: State, val: nat)
    requires SlotsOk(s) && TimedOk(s) && val !in s.timers && val in Live(s)
    requires t == Dropped(s, val)
    ensures TimersOk(t.items, t.timers, t.tvStart, t.tvEnd)
  {
    DroppedSlots(s, val);
    DroppedKeeps(s, val);
    hide Dropped, SlotsOk, Live;
    forall i | 0 <= i < |t.timers|
      ensures t.timers[i] < |t.items| && NodeOk(t.items, t.timers, i)
      ensures t.items[t.timers[i]].tvMs == s.items[t.timers[i]].tvMs
    {
      assert t.timers[i] in s.timers && NodeOk(s.items, s.timers, i);
    }
    OrderKept(s.items, t.items, s.timers);
  }

  // --- the pair ---

  lemma {:induction false} ChainSame(live: set<nat>, a: seq<Item>, b: seq<Item>, e: nat)
    requires InRange(live, a) && |a| == |b| && (forall x :: x in live ==> a[x].pair == b[x].pair)
    ensures Chain(live, a, e) == Chain(live, b, e)
    decreases |live|
  {
    if e in live && a[e].pair.Some? { ChainSame(live - {e}, a, b, a[e].pair.value); }
  }

  // Clearing the link back to a deleted event does not change what remains of the chain.
  lemma ChainStep(live: set<nat>, a: seq<Item>, b: seq<Item>, val: nat, p: nat)
    requires InRange(live, a) && |a| == |b| && val in live && val != p
    requires forall x :: x in live - {val} ==>
      b[x].pair == if x == p && a[x].pair == Some(val) then None else a[x].pair
    ensures Chain(live - {val}, b, p) == Chain(live - {val}, a, p)
  {
    var rest := live - {val};
    if p in rest && a[p].pair.Some? && a[p].pair.value != val {
      ChainSame(rest - {p}, a, b, a[p].pair.value);
    }
  }

  // Clearing the pair of the deleted event and, if it points back, that of its partner.
  ghost function Unpaired(items: seq<Item>, val: nat, p: nat): seq<Item>
    requires val < |items| && p < |items|
  {
    var a := if items[p].pair == Some(val) then items[p := items[p].(pair := None)] else items;
    a[val := a[val].(pair := None)]
  }

  lemma UnpairedFields(items: seq<Item>, val: nat, p: nat)
    requires val < |items| && p < |items| && val != p
    ensures var r := Unpaired(items, val, p);
      && |r| == |items|
      && forall e :: 0 <= e < |items| ==>
        r[e] == items[e].(pair := if e == val || (e == p && items[p].pair == Some(val)) then None else items[e].pair)
  {
  }

  // `t` is `s` with other pair fields.
  ghost predicate OnlyPairs(s: State, t: State) {
    && t == s.(items := t.items) && |t.items| == |s.items|
    && forall e :: 0 <= e < |s.items| ==> t.items[e] == s.items[e].(pair := t.items[e].pair)
  }

  lemma OnlyPairsSlots(s: State, t: State)
    requires SlotsOk(s) && OnlyPairs(s, t)
    ensures SlotsOk(t) && Live(t) == Live(s) && |s.items| == s.max
  {
  }

  lemma OnlyPairsTimers(s: State, t: State)
    requires SlotsOk(s) && OnlyPairs(s, t) && TimedOk(s)
    ensures SlotsOk(t) && TimedOk(t)
  {
    OnlyPairsSlots(s, t);
    LiveInRange(s);
    hide Live, SlotsOk;
    forall i | 0 <= i < |t.timers|
      ensures NodeOk(t.items, t.timers, i) && t.items[t.timers[i]].tvMs == s.items[t.timers[i]].tvMs
    {
      assert NodeOk(s.items, s.timers, i);
    }
    OrderKept(s.items, t.items, s.timers);
    forall e | e in Live(t) ensures TimedItem(t.items[e], e in t.timers) {
      assert TimedItem(s.items[e], e in s.timers);
    }
  }

  lemma OnlyPairsInv(s: State, t: State, gone: set<nat>)
    requires InvBut(s, gone) && OnlyPairs(s, t)
    requires forall e :: e in Live(s) && e < |t.items| && t.items[e].pair.Some? ==>
      t.items[e].pair.value in Live(s) + gone && t.items[e].pair.value != e
    ensures InvBut(t, gone) && Live(t) == Live(s)
  {
    OnlyPairsTimers(s, t);
    OnlyPairsSlots(s, t);
    LiveInRange(s);
    hide Live, SlotsOk, TimedOk;
    forall e | e in Live(t) ensures LiveItem(e, t.items[e], t.iters, e in t.touched, Live(t) + gone) {
      assert LiveItem(e, s.items[e], s.iters, e in s.touched, Live(s) + gone);
    }
  }

  lemma UnpairedInv(s: State, val: nat, p: nat, gone: set<nat>)
    requires InvBut(s, gone) && val in gone && p < s.max && p != val
    ensures InvBut(s.(items := Unpaired(s.items, val, p)), gone)
    ensures Live(s.(items := Unpaired(s.items, val, p))) == Live(s)
  {
    var t := s.(items := Unpaired(s.items, val, p));
    UnpairedFields(s.items, val, p);
    LiveInRange(s);
    forall e | e in Live(s) && t.items[e].pair.Some?
      ensures t.items[e].pair.value in Live(s) + gone && t.items[e].pair.value != e
    {
      assert LiveItem(e, s.items[e], s.iters, e in s.touched, Live(s) + gone);
    }
    assert OnlyPairs(s, t);
    hide Unpaired, InvBut, Live, SlotsOk;
    OnlyPairsInv(s, t, gone);
  }

  predicate StaysDead(a: Item, b: Item) {
    a.fd == b.fd && a.modIter == b.modIter && (b.pair == a.pair || b.pair.None?)
  }

  // What deleting the events `d` changes: they are closed and out of the timer list, which
  // keeps its order, and they count as touched; every other live event keeps its descriptor,
  // iteration, deadline and pair.  `but` is an event whose pair may have been cleared as well.
  ghost predicate DeletedBut(s: State, t: State, d: set<nat>, but: Option<nat>) {
    && SlotsOk(s) && SlotsOk(t)
    && t.max == s.max && t.iters == s.iters && t.pevents == s.pevents
    && Live(t) == Live(s) - d
    && t.touched == s.touched + d
    && (forall e :: e in t.timers <==> e in s.timers && e !in d)
    && (forall e :: e in d ==> e in Live(s) && e < s.max && t.items[e].fd == -1 && t.items[e].pair.None?)
    && (forall e :: e in Live(t) && but != Some(e) ==> e < s.max && SameEvent(s.items[e], t.items[e]))
    && (forall e :: 0 <= e < s.max && e !in Live(s) ==> StaysDead(s.items[e], t.items[e]))
  }

  ghost predicate Deleted(s: State, t: State, d: set<nat>) {
    DeletedBut(s, t, d, None)
  }

  lemma UnregisteredIs(s: State, val: nat, gone: set<nat>)
    requires InvBut(s, gone) && val in Live(s)
    ensures LinksInRange(s.items, val) && SlotsOk(Untimed(s, val)) && val in Live(Untimed(s, val))
    ensures var t := Dropped(Untimed(s, val), val);
      && val < s.max == t.max == |t.items| && t.items[val].pair == s.items[val].pair
      && DeletedBut(s, t.(items := t.items[val := t.items[val].(pair := None)]), {val}, None)
  {
    hide SlotsOk, Live, Dropped, LinkOut, TimersOk, InvBut, Untimed, LinksInRange;
    UntimedInv(s, val, gone);
    SlotsFromInv(s, gone);
    var u := Untimed(s, val);
    SlotsFromInv(u, gone);
    DroppedSlots(u, val);
    DroppedKeeps(u, val);
    UnregisteredKeeps(s, val, gone);
    PairDropped(Dropped(u, val), val);
  }

  lemma PairDropped(s: State, val: nat)
    requires SlotsOk(s) && val < |s.items|
    ensures var t := s.(items := s.items[val := s.items[val].(pair := None)]);
      SlotsOk(t) && Live(t) == Live(s)
  {
    OnlyPairsSlots(s, s.(items := s.items[val := s.items[val].(pair := None)]));
  }

  // What each item holds afterwards.
  lemma UnregisteredKeeps(s: State, val: nat, gone: set<nat>)
    requires InvBut(s, gone) && val in Live(s) && LinksInRange(s.items, val)
    requires SlotsOk(Untimed(s, val)) && val in Live(Untimed(s, val)) && Live(Untimed(s, val)) == Live(s)
    ensures var u := Untimed(s, val);
      var t := Dropped(u, val);
      && |t.items| == s.max && val < s.max && |s.items| == s.max && u.max == s.max && u.iters == s.iters
      && u.touched == s.touched && u.pevents == s.pevents
      && (forall e :: e in u.timers <==> e in s.timers && e != val)
      && t.items[val].fd == -1 && t.items[val].pair == s.items[val].pair
      && (forall e :: e in Live(s) && e != val ==> e < s.max && SameEvent(s.items[e], t.items[e]))
      && (forall e :: 0 <= e < s.max && e !in Live(s) ==> t.items[e] == s.items[e])
  {
    UntimedTimers(s, val);
    var u := Untimed(s, val);
    DroppedSlots(u, val);
    LiveInRange(s);
    var t := Dropped(u, val);
    UntimedPlain(s, val);
    hide SlotsOk, Live, Dropped, LinkOut, TimersOk, LinksInRange, Untimed;
    forall e | e in Live(s) && e != val ensures SameEvent(s.items[e], t.items[e]) {
      UntimedMs(s, val, e);
      assert TimerFieldsOnly(s.items[e], u.items[e], e in s.timers);
    }
    forall e | 0 <= e < s.max && e !in Live(s) ensures t.items[e] == s.items[e] {
      assert TimerFieldsOnly(s.items[e], u.items[e], e in s.timers);
    }
    assert TimerFieldsOnly(s.items[val], u.items[val], val in s.timers);
  }

  lemma UntimedPlain(s: State, val: nat)
    requires LinksInRange(s.items, val)
    ensures var u := Untimed(s, val);
      && u.max == s.max && u.iters == s.iters && u.touched == s.touched && u.pevents == s.pevents
      && u.items == LinkOut(s.items, val)
  {
  }

  // One call of del_event before it follows the pair to `e`.
  lemma PairFacts(s: State, s1: State, val: nat, e: nat, gone: set<nat>)
    requires InvBut(s, gone) && val in Live(s) && LinksInRange(s.items, val)
    requires SlotsOk(Untimed(s, val)) && val in Live(Untimed(s, val)) && s1 == Dropped(Untimed(s, val), val)
    requires InvBut(s1, gone + {val}) && Live(s1) == Live(s) - {val}
    requires val < s.max && s.items[val].pair == Some(e) && e != val && e < |s1.items| && val < |s1.items|
    ensures var s2 := s1.(items := Unpaired(s1.items, val, e));
      && InvBut(s2, gone + {val}) && Live(s2) == Live(s) - {val}
      && e in Live(s2) + (gone + {val})
      && DeletedBut(s, s2, {val}, Some(e))
      && InRange(Live(s), s.items) && InRange(Live(s2), s2.items)
      && Chain(Live(s2), s2.items, e) == Chain(Live(s) - {val}, s.items, e)
  {
    hide InvBut, Unpaired, Untimed, Dropped, SlotsOk, Live, Chain;
    var s2 := s1.(items := Unpaired(s1.items, val, e));
    PlainFacts(s, val, gone);
    UnpairedInv(s1, val, e, gone + {val});
    UnpairedFields(s1.items, val, e);
    UnregisteredIs(s, val, gone);
    SlotsFromInv(s2, gone + {val});
    LiveInRange(s);
    LiveInRange(s2);
    var v := s1.(items := s1.items[val := s1.items[val].(pair := None)]);
    forall x | x in Live(s) - {val}
      ensures s2.items[x].pair == if x == e && s.items[x].pair == Some(val) then None else s.items[x].pair
      ensures e != x ==> SameEvent(s.items[x], s2.items[x])
    {
      assert SameEvent(s.items[x], v.items[x]);
    }
    ChainStep(Live(s), s.items, s2.items, val, e);
    forall x | 0 <= x < s.max && x !in Live(s) ensures StaysDead(s.items[x], s2.items[x]) {
      assert StaysDead(s.items[x], v.items[x]);
    }
  }

  lemma PlainFacts(s: State, val: nat, gone: set<nat>)
    requires InvBut(s, gone) && val in Live(s) && LinksInRange(s.items, val)
    requires SlotsOk(Untimed(s, val)) && val in Live(Untimed(s, val)) && val < |s.items|
    ensures var s1 := Dropped(Untimed(s, val), val); |s1.items| == s.max && s1.max == s.max && |s.items| == s.max
    ensures SlotsOk(s) && SlotsOk(Dropped(Untimed(s, val), val))
    ensures s.items[val].pair.Some? ==> s.items[val].pair.value in Live(s) + gone
  {
    DroppedLive(Untimed(s, val), val);
    assert LiveItem(val, s.items[val], s.iters, val in s.touched, Live(s) + gone);
  }

  lemma SlotsFromInv(s: State, gone: set<nat>)
    requires InvBut(s, gone)
    ensures SlotsOk(s)
  {
  }

  // The whole of del_event, put together from its first part and the call it makes.
  lemma DelTogether(s: State, s2: State, t: State, val: nat, e: nat, gone: set<nat>)
    requires SlotsOk(s) && InRange(Live(s), s.items) && val in Live(s) && s.items[val].pair == Some(e)
    requires DeletedBut(s, s2, {val}, Some(e))
    requires var d := Members(Chain(Live(s) - {val}, s.items, e));
      Deleted(s2, t, d) && InvBut(t, gone + {val} + d)
    ensures var d := Members(Chain(Live(s), s.items, val));
      Deleted(s, t, d) && InvBut(t, gone + d)
  {
    hide Chain, Live, InvBut, DeletedBut, SlotsOk, Members, InRange;
    ChainMembers(Live(s), s.items, val, e);
    var d := Members(Chain(Live(s) - {val}, s.items, e));
    assert gone + ({val} + d) == gone + {val} + d;
    LeftOvers(s, s2, val, e);
    DeletedTwice(s, s2, t, val, e, d);
  }

  lemma LeftOvers(s: State, t: State, val: nat, e: nat)
    requires DeletedBut(s, t, {val}, Some(e))
    ensures SlotsOk(s) && SlotsOk(t) && Live(t) == Live(s) - {val}
  {
  }

  lemma ChainMembers(live: set<nat>, items: seq<Item>, val: nat, e: nat)
    requires InRange(live, items) && val in live && items[val].pair == Some(e)
    ensures InRange(live - {val}, items)
    ensures Members(Chain(live, items, val)) == {val} + Members(Chain(live - {val}, items, e))
    ensures e in live - {val} ==> e in Members(Chain(live - {val}, items, e))
  {
    assert Chain(live, items, val) == [val] + Chain(live - {val}, items, e);
  }

  lemma DeletedTwice(s: State, s2: State, t: State, val: nat, e: nat, d: set<nat>)
    requires DeletedBut(s, s2, {val}, Some(e)) && Deleted(s2, t, d)
    requires SlotsOk(s2) && (e in Live(s2) ==> e in d)
    ensures Deleted(s, t, {val} + d)
  {
    assert |s.items| == s.max && |s2.items| == s.max && |t.items| == s.max;
    hide SlotsOk, Live;
    assert Live(t) == Live(s) - ({val} + d);
    assert t.touched == s.touched + ({val} + d);
    forall x | x in {val} + d
      ensures x in Live(s) && x < s.max && t.items[x].fd == -1 && t.items[x].pair.None?
    {
      assert x !in d ==> StaysDead(s2.items[x], t.items[x]);
    }
    forall x | x in Live(t) ensures SameEvent(s.items[x], t.items[x]) {
      assert SameEvent(s.items[x], s2.items[x]) && SameEvent(s2.items[x], t.items[x]);
    }
    forall x | 0 <= x < s.max && x !in Live(s) ensures StaysDead(s.items[x], t.items[x]) {
      assert StaysDead(s.items[x], s2.items[x]) && StaysDead(s2.items[x], t.items[x]);
    }
  }

  lemma DelAlone(s: State, t: State, val: nat, gone: set<nat>)
    requires InvBut(s, gone) && val in Live(s) && LinksInRange(s.items, val)
    requires SlotsOk(Untimed(s, val)) && val in Live(Untimed(s, val)) && t == Dropped(Untimed(s, val), val)
    requires InvBut(t, gone + {val}) && val < |t.items| && t.items[val].pair.None? && InRange(Live(s), s.items)
    ensures var d := Members(Chain(Live(s), s.items, val));
      Deleted(s, t, d) && InvBut(t, gone + d)
  {
    hide InvBut, SlotsOk, Live, Dropped, Untimed, LinksInRange, DeletedBut;
    SlotsFromInv(s, gone);
    UnregisteredIs(s, val, gone);
    assert t.items[val := t.items[val].(pair := None)] == t.items;
    assert Chain(Live(s), s.items, val) == [val];
    assert Members([val]) == {val};
  }

  lemma AsNoneGone(s: State)
    ensures Inv(s) <==> InvBut(s, {})
  {
  }

  // --- del_event as a whole ---

  // What del_event needs to find around an event that is open.
  ghost predicate Closable(s: State, val: nat) {
    && SlotsOk(s) && val in Live(s) && LinksInRange(s.items, val)
    && SlotsOk(Untimed(s, val)) && val in Live(Untimed(s, val))
  }

  // The state after del_event: the event is out of the timer list, closed and out of the live prefix,
  // it and its pair have forgotten each other, and the pair has gone the same way.
  ghost function Closed(s: State, val: nat): State
    decreases s.count
  {
    if val < |s.items| && s.items[val].fd != -1 && Closable(s, val) then
      DroppedSlots(Untimed(s, val), val);
      var s1 := Dropped(Untimed(s, val), val);
      match s1.items[val].pair
      case None => s1
      case Some(e) => if e < |s1.items| then Closed(s1.(items := Unpaired(s1.items, val, e)), e) else s1
    else
      s
  }

  // What del_event knows when it begins.
  lemma DelFacts(s: State, val: nat, gone: set<nat>)
    requires InvBut(s, gone) && val in Live(s) + gone
    ensures SlotsOk(s) && val < s.max == |s.items| && InRange(Live(s), s.items)
    ensures s.items[val].fd == -1 ==>
      && InvBut(s, gone + Members(Chain(Live(s), s.items, val)))
      && Deleted(s, s, Members(Chain(Live(s), s.items, val)))
    ensures s.items[val].fd != -1 ==>
      && val in Live(s) && s.items[val].fd >= -1 && s.items[val].modIter <= s.iters
      && (s.items[val].pair.Some? ==> s.items[val].pair.value != val && s.items[val].pair.value < s.max)
  {
    LiveInRange(s);
    if val in Live(s) {
      assert LiveItem(val, s.items[val], s.iters, val in s.touched, Live(s) + gone);
    } else {
      assert gone + Members([]) == gone;
      assert Live(s) - Members([]) == Live(s) && s.touched + Members([]) == s.touched;
    }
  }

  lemma UnregisterFacts(s: State, val: nat, gone: set<nat>)
    requires InvBut(s, gone) && val in Live(s)
    ensures LinksInRange(s.items, val) && s.items[val].tvPrev != Some(val) && s.items[val].tvNext != Some(val)
    ensures LinksInRange(s.items[val := Close(s.items[val], s.iters)], val)
    ensures var s1 := Untimed(s, val);
      && |s1.items| == |s1.links| == |s.items| && s1.count == s.count <= |s1.items|
      && LinkOut(s.items[val := Close(s.items[val], s.iters)], val) == s1.items[val := Close(s1.items[val], s.iters)]
      && SlotsOk(s1) && val in Live(s1) && val < |s1.items| && s1.count > 0
      && 0 <= s1.items[val].index < s1.count && s1.links[s1.items[val].index] == val
      && s1.links[s1.count - 1] < |s1.items|
      && (s1.links[s1.count - 1] == val ==> s1.items[val].index == s1.count - 1)
      && InvBut(Dropped(s1, val), gone + {val}) && Live(Dropped(s1, val)) == Live(s) - {val}
  {
    UntimedInv(s, val, gone);
    UntimedTimers(s, val);
    var s1 := Untimed(s, val);
    KnowsPlace(s1, val);
    DroppedInv(s1, val, gone);
    if val in s.timers {
      var k :| 0 <= k < |s.timers| && s.timers[k] == val;
      NextToEachOther(s.items, s.timers, s.tvStart, s.tvEnd, k);
    } else {
      assert TimedItem(s.items[val], val in s.timers);
    }
    CloseCommutes(s.items, val, s.iters);
  }

  // An open event of a pool in order: the steps of del_event one by one.
  lemma ClosedUnfolds(s: State, val: nat, gone: set<nat>)
    requires InvBut(s, gone) && val in Live(s) && val < |s.items| && s.items[val].fd != -1
    ensures LinksInRange(s.items, val) && SlotsOk(Untimed(s, val)) && val in Live(Untimed(s, val))
    ensures var s1 := Dropped(Untimed(s, val), val);
      && val < s.max == s1.max == |s1.items| && s1.items[val].pair == s.items[val].pair
      && (s1.items[val].pair.None? ==> Closed(s, val) == s1)
      && (s1.items[val].pair.Some? && s1.items[val].pair.value < |s1.items| ==>
            var e := s1.items[val].pair.value;
            Closed(s, val) == Closed(s1.(items := Unpaired(s1.items, val, e)), e))
  {
    hide InvBut, Live, SlotsOk, LinksInRange, Untimed, Dropped, Unpaired, DeletedBut;
    SlotsFromInv(s, gone);
    UnregisteredIs(s, val, gone);
    UntimedInv(s, val, gone);
  }

  // A deletion takes out exactly the events on the pair chain, and keeps the pool in order around
  // them.
  lemma {:induction false} ClosedIs(s: State, val: nat, gone: set<nat>)
    requires InvBut(s, gone) && val in Live(s) + gone
    ensures InRange(Live(s), s.items)
    ensures var d := Members(Chain(Live(s), s.items, val));
      Deleted(s, Closed(s, val), d) && InvBut(Closed(s, val), gone + d)
    decreases |Live(s)|
  {
    hide InvBut, SlotsOk, DeletedBut, Live, LinksInRange, Untimed, Dropped, Chain, Unpaired, Members, InRange, Closed;
    DelFacts(s, val, gone);
    if s.items[val].fd == -1 {
      ClosedStays(s, val);
    } else {
      UnregisterFacts(s, val, gone);
      UnregisteredIs(s, val, gone);
      ClosedUnfolds(s, val, gone);
      var s1 := Dropped(Untimed(s, val), val);
      match s.items[val].pair
      case None => DelAlone(s, s1, val, gone);
      case Some(e) =>
        PairFacts(s, s1, val, e, gone);
        var s2 := s1.(items := Unpaired(s1.items, val, e));
        ClosedIs(s2, e, gone + {val});
        DelTogether(s, s2, Closed(s, val), val, e, gone);
    }
  }

  lemma ClosedStays(s: State, val: nat)
    requires val < |s.items| && s.items[val].fd == -1
    ensures Closed(s, val) == s
  {
  }

  // A survivor's pair survives.
  lemma PairSurvives(s: State, t: State, val: nat, e: nat)
    requires SlotsOk(s) && InRange(Live(s), s.items) && Paired(Live(s), s.items) && val in Live(s)
    requires Deleted(s, t, Members(Chain(Live(s), s.items, val)))
    requires InRange(Live(t), t.items) && e in Live(t)
    ensures PairsWell(Live(t), t.items, e)
  {
    var c := Chain(Live(s), s.items, val);
    hide Chain, SlotsOk, Live, Paired;
    assert e in Live(s) && SameEvent(s.items[e], t.items[e]);
    if t.items[e].pair.Some? {
      var p := t.items[e].pair.value;
      PairedAt(Live(s), s.items, e);
      if p in c { ChainIsCycle(Live(s), s.items, val, e); }
      assert p in Live(t) && SameEvent(s.items[p], t.items[p]);
    }
  }

  lemma PairsSurvive(s: State, t: State, val: nat)
    requires SlotsOk(s) && InRange(Live(s), s.items) && Paired(Live(s), s.items) && val in Live(s)
    requires Deleted(s, t, Members(Chain(Live(s), s.items, val)))
    ensures InRange(Live(t), t.items) && Paired(Live(t), t.items)
  {
    LiveInRange(t);
    forall e | e in Live(t) ensures PairsWell(Live(t), t.items, e) { PairSurvives(s, t, val, e); }
    hide Chain, SlotsOk, Live, Paired;
    forall a, b | a in Live(t) && b in Live(t) ensures PairsApart(t.items, a, b) {
      assert SameEvent(s.items[a], t.items[a]) && SameEvent(s.items[b], t.items[b]);
      if t.items[a].pair.Some? && t.items[a].pair == t.items[b].pair { PairedOnce(Live(s), s.items, a, b); }
    }
    PairedFrom(Live(t), t.items);
  }

  lemma DropGone(t: State, gone: set<nat>)
    requires InvBut(t, gone) && SlotsOk(t) && InRange(Live(t), t.items) && Paired(Live(t), t.items)
    ensures Inv(t)
  {
    hide SlotsOk, Live, TimedOk, BatchOk, Paired;
    forall e | e in Live(t) ensures LiveItem(e, t.items[e], t.iters, e in t.touched, Live(t) + {}) {
      assert LiveItem(e, t.items[e], t.iters, e in t.touched, Live(t) + gone);
      if t.items[e].pair.Some? { PairedAt(Live(t), t.items, e); }
    }
  }

  // Deleting an event of a pool whose pair fields form cycles takes its whole cycle out: no
  // event that is left points at a deleted one, and the pair fields still form cycles.
  lemma NothingDangles(s: State, val: nat)
    requires Inv(s) && InRange(Live(s), s.items) && Paired(Live(s), s.items) && val in Live(s)
    ensures var t := Closed(s, val);
      && Deleted(s, t, Members(Chain(Live(s), s.items, val)))
      && Inv(t) && SlotsOk(t) && InRange(Live(t), t.items) && Paired(Live(t), t.items)
      && forall e :: e in Live(t) && t.items[e].pair.Some? ==> t.items[e].pair.value in Live(t)
  {
    hide Closed, Chain, DeletedBut, Live, InvBut, SlotsOk, Members, Inv;
    AsNoneGone(s);
    SlotsFromInv(s, {});
    ClosedIs(s, val, {});
    var t, d := Closed(s, val), Members(Chain(Live(s), s.items, val));
    SlotsFromInv(t, {} + d);
    PairsSurvive(s, t, val);
    DropGone(t, {} + d);
  }

  // The invariant, and the pair fields form cycles.
  ghost predicate Whole(s: State) {
    Inv(s) && SlotsOk(s) && InRange(Live(s), s.items) && Paired(Live(s), s.items)
  }

  // --- set_timer ---

  ghost predicate TimersInRange(s: State) {
    forall i :: 0 <= i < |s.timers| ==> s.timers[i] < |s.items|
  }

  ghost function ArmedAt(s: State, val: nat, deadline: int, k: nat): State
    requires val < |s.items| && k <= |s.timers| && TimersInRange(s)
  {
    s.(items := LinkIn(s.items[val := s.items[val].(tvMs := deadline)], val, At(s.timers, k - 1), At(s.timers, k)),
       timers := PutAt(s.timers, k, val),
       tvStart := if k == 0 then Some(val) else s.tvStart,
       tvEnd := if k == |s.timers| then Some(val) else s.tvEnd)
  }

  // Everything before position k has an earlier deadline, everything from there on has not.
  ghost predicate Divides(s: State, deadline: int, k: nat)
    requires TimersInRange(s)
  {
    && k <= |s.timers|
    && (forall i :: 0 <= i < k ==> s.items[s.timers[i]].tvMs < deadline)
    && (forall i :: k <= i < |s.timers| ==> s.items[s.timers[i]].tvMs >= deadline)
  }

  // `t` is `s` with the event queued behind the earlier deadlines and before all others.
  ghost predicate Armed(s: State, t: State, val: nat, deadline: int) {
    && val < |s.items| && TimersInRange(s)
    && exists k: nat :: Divides(s, deadline, k) && t == ArmedAt(s, val, deadline, k)
  }

  lemma TimerFacts(s: State, val: nat)
    requires Inv(s) && val in Live(s) && val < |s.items| && s.items[val].tvMs == 0
    ensures TimersOk(s.items, s.timers, s.tvStart, s.tvEnd) && val !in s.timers && TimersInRange(s)
  {
    assert TimedItem(s.items[val], val in s.timers);
  }

  // `t` is `s` with other timer fields.
  ghost predicate OnlyTimers(s: State, t: State) {
    && t == s.(items := t.items, timers := t.timers, tvStart := t.tvStart, tvEnd := t.tvEnd)
    && |t.items| == |s.items|
    && forall e :: 0 <= e < |s.items| ==> TimerFieldsOnly(s.items[e], t.items[e], true)
  }

  lemma OnlyTimersInv(s: State, t: State)
    requires Inv(s) && OnlyTimers(s, t)
    requires SlotsOk(t) ==> TimedOk(t)
    ensures Inv(t) && Live(t) == Live(s)
  {
    assert SlotsOk(t) && Live(t) == Live(s);
    LiveInRange(s);
    hide TimedOk, Live, SlotsOk;
    forall e | e in Live(t) ensures LiveItem(e, t.items[e], t.iters, e in t.touched, Live(t) + {}) {
      assert LiveItem(e, s.items[e], s.iters, e in s.touched, Live(s) + {});
    }
  }

  lemma ArmedTimers(s: State, val: nat, deadline: int, k: nat)
    requires Inv(s) && val in Live(s) && val < |s.items| && s.items[val].tvMs == 0 && deadline > 0
    requires TimersInRange(s) && k <= |s.timers|
    requires k > 0 ==> s.items[s.timers[k - 1]].tvMs < deadline
    requires k < |s.timers| ==> s.items[s.timers[k]].tvMs >= deadline
    ensures var t := ArmedAt(s, val, deadline, k);
      && (forall e :: e in t.timers <==> e in s.timers || e == val)
      && TimersOk(t.items, t.timers, t.tvStart, t.tvEnd)
  {
    var items := s.items[val := s.items[val].(tvMs := deadline)];
    TimerFacts(s, val);
    hide Inv, Live;
    TimersElsewhere(s.items, items, s.timers, s.tvStart, s.tvEnd);
    LinkInOk(items, s.timers, s.tvStart, s.tvEnd, val, k);
    PutIs(s.timers, k, val);
    hide LinkIn, InOrder, NodeOk;
  }

  lemma ArmedFields(s: State, items: seq<Item>, val: nat, deadline: int, k: nat)
    requires Distinct(s.timers) && TimersInRange(s) && k <= |s.timers| && val < |s.items| && val !in s.timers
    requires items == s.items[val := s.items[val].(tvMs := deadline)]
    ensures k > 0 ==> s.timers[k - 1] < |items|
    ensures k < |s.timers| ==> s.timers[k] < |items|
    ensures var r := LinkIn(items, val, At(s.timers, k - 1), At(s.timers, k));
      && |r| == |s.items|
      && (forall e :: 0 <= e < |s.items| ==> TimerFieldsOnly(s.items[e], r[e], true))
      && (forall e :: 0 <= e < |s.items| && e != val ==> r[e].tvMs == s.items[e].tvMs)
      && r[val].tvMs == deadline
      && (forall e :: 0 <= e < |s.items| && e !in s.timers && e != val ==> r[e] == s.items[e])
  {
    LinkInFrame(items, s.timers, val, k);
    LinkInMs(items, val, At(s.timers, k - 1), At(s.timers, k));
    var r := LinkIn(items, val, At(s.timers, k - 1), At(s.timers, k));
    hide LinkIn;
    forall e | 0 <= e < |s.items|
      ensures TimerFieldsOnly(s.items[e], r[e], true) && (e !in s.timers && e != val ==> r[e] == s.items[e])
    {
      assert TimerFieldsOnly(items[e], r[e], e in s.timers || e == val);
    }
  }

  lemma LinkInMs(items: seq<Item>, val: nat, prev: Option<nat>, next: Option<nat>)
    requires val < |items| && (prev.Some? ==> prev.value < |items|) && (next.Some? ==> next.value < |items|)
    ensures |LinkIn(items, val, prev, next)| == |items|
    ensures forall e :: 0 <= e < |items| ==> LinkIn(items, val, prev, next)[e].tvMs == items[e].tvMs
  {
  }

  lemma ArmedInv(s: State, val: nat, deadline: int, k: nat)
    requires Inv(s) && val in Live(s) && val < |s.items| && s.items[val].tvMs == 0 && deadline > 0
    requires TimersInRange(s) && k <= |s.timers|
    requires k > 0 ==> s.items[s.timers[k - 1]].tvMs < deadline
    requires k < |s.timers| ==> s.items[s.timers[k]].tvMs >= deadline
    ensures Inv(ArmedAt(s, val, deadline, k)) && Armed(s, ArmedAt(s, val, deadline, k), val, deadline)
  {
    var t := ArmedAt(s, val, deadline, k);
    TimerFacts(s, val);
    ArmedTimers(s, val, deadline, k);
    assert Divides(s, deadline, k) by { InOrderDivides(s, deadline, k); }
    assert Distinct(s.timers);
    hide Inv, Live, TimersOk;
    ArmedFields(s, s.items[val := s.items[val].(tvMs := deadline)], val, deadline, k);
    hide LinkIn, PutAt, Divides;
    ArmedListed(s, t, val);
    OnlyTimersInv(s, t);
  }

  lemma InOrderDivides(s: State, deadline: int, k: nat)
    requires TimersOk(s.items, s.timers, s.tvStart, s.tvEnd) && TimersInRange(s) && k <= |s.timers|
    requires k > 0 ==> s.items[s.timers[k - 1]].tvMs < deadline
    requires k < |s.timers| ==> s.items[s.timers[k]].tvMs >= deadline
    ensures Divides(s, deadline, k)
  {
  }

  lemma ArmedListed(s: State, t: State, val: nat)
    requires Inv(s) && OnlyTimers(s, t) && val in Live(s) && val < |s.items|
    requires forall e :: e in t.timers <==> e in s.timers || e == val
    requires TimersOk(t.items, t.timers, t.tvStart, t.tvEnd) && t.items[val].tvMs != 0
    requires forall e :: 0 <= e < |s.items| && e != val ==> t.items[e].tvMs == s.items[e].tvMs
    requires forall e :: 0 <= e < |s.items| && e !in s.timers && e != val ==> t.items[e] == s.items[e]
    ensures SlotsOk(t) && TimedOk(t)
  {
    assert SlotsOk(t) && Live(t) == Live(s);
    LiveInRange(s);
    hide Live, SlotsOk, TimersOk;
    forall e | e in Live(t) ensures TimedItem(t.items[e], e in t.timers) {
      assert TimedItem(s.items[e], e in s.timers);
    }
  }

  // --- next_event ---

  // What the kernel promises: a batch is not empty, fits the array, and names live events.
  ghost predicate KernelOk(s: State, w: Wait)
    requires SlotsOk(s)
  {
    w.Ready? ==> 0 < |w.batch| <= s.max && forall i :: 0 <= i < |w.batch| ==> w.batch[i].ev in Live(s)
  }

  // A new batch: the iteration moves on, and nothing has been touched since.
  ghost function NewBatch(s: State, batch: seq<PEvent>): State {
    s.(pevents := batch, iters := s.iters + 1, touched := {})
  }

  lemma NewBatchInv(s: State, w: Wait)
    requires Inv(s) && SlotsOk(s) && w.Ready? && KernelOk(s, w)
    ensures Inv(NewBatch(s, w.batch)) && Live(NewBatch(s, w.batch)) == Live(s)
  {
    var t := NewBatch(s, w.batch);
    assert SlotsOk(t) && Live(t) == Live(s);
    LiveInRange(s);
    hide SlotsOk, Live;
    forall e | e in Live(t) ensures LiveItem(e, t.items[e], t.iters, e in t.touched, Live(t) + {}) {
      assert LiveItem(e, s.items[e], s.iters, e in s.touched, Live(s) + {});
    }
  }

  // All entries of the current batch up to the offset have been touched since it began.
  ghost predicate AllStale(s: State, offs: int) {
    forall j :: 0 <= j <= offs && j < |s.pevents| ==> s.pevents[j].ev in s.touched
  }

  // When next_event_tv fires a timer.
  ghost predicate MayFire(s: State, offs: int, etype: int, now: int, wait: Wait)
    requires s.timers != [] ==> s.timers[0] < |s.items|
  {
    s.timers != [] &&
    (s.items[s.timers[0]].tvMs <= now ||
     (AllStale(s, offs) && (wait.TimedOut? || (wait.Failed? && etype == POLLTIMEOUT))))
  }

  // It fires one whose time has not come although the wait did not time out, if the wait failed while
  // the type still said timeout from before.
  lemma FailedWaitFires()
    ensures var item := Item(5, 0, 0, 100, None, None, None);
      var s := State(1, 1, [0], [item], 1, Some(0), Some(0), [], [0], {});
      && Inv(s) && s.items[s.timers[0]].tvMs > 99
      && MayFire(s, -1, POLLTIMEOUT, 99, Failed) && !MayFire(s, -1, POLLTIMEOUT + 1, 99, Failed)
  {
    var item := Item(5, 0, 0, 100, None, None, None);
    var s := State(1, 1, [0], [item], 1, Some(0), Some(0), [], [0], {});
    assert s.links[..1] == [0] && Members([0]) == {0};
    assert NodeOk(s.items, s.timers, 0);
    assert TimedItem(item, true) && LiveItem(0, item, 1, false, {0} + {});
  }

  // The event is the latest entry of the batch, at or below `from`, that has not been touched
  // since the batch began, and it is live.
  ghost predicate Dispatched(s: State, from: int, offs: int, ev: nat, events: int)
    requires SlotsOk(s)
  {
    && -1 <= offs < from < |s.pevents|
    && ev == s.pevents[offs + 1].ev && events == s.pevents[offs + 1].events
    && ev in Live(s) && ev !in s.touched
    && forall j :: offs + 1 < j <= from ==> s.pevents[j].ev in s.touched
  }

  // modIter tells touched entries of the batch from the others.
  lemma StaleByIteration(s: State, i: nat)
    requires Inv(s) && SlotsOk(s) && i < |s.pevents|
    ensures s.pevents[i].ev < |s.items|
    ensures s.items[s.pevents[i].ev].modIter == s.iters <==> s.pevents[i].ev in s.touched
    ensures s.pevents[i].ev in Live(s) + s.touched
  {
    var e := s.pevents[i].ev;
    if e in Live(s) { assert LiveItem(e, s.items[e], s.iters, e in s.touched, Live(s) + {}); }
  }

  lemma SlotsOfInv(s: State)
    requires Inv(s)
    ensures SlotsOk(s) && |s.pevents| <= s.max && TimersOk(s.items, s.timers, s.tvStart, s.tvEnd)
    ensures forall e :: e in s.timers ==> e in Live(s)
  {
  }

  // ---------------------------------------------------------------------------------------
  // Whole runs
  // ---------------------------------------------------------------------------------------

  // What one operation of the program does to the pool.
  datatype Operation =
    | Add(fd: int, registered: bool)
    | Arm(val: nat, deadline: int, k: nat)     // set_timer puts it in place k
    | Fire(val: nat)                           // remove_timer
    | Fetch(wait: Wait)                        // epoll_wait delivers a batch
    | Del(val: nat)
    | Couple(a: nat, b: nat)                   // create_conn
    | Ring(a: nat, b: nat, c: nat)             // the UDP association
    | Repair(client: nat, former: nat, remote: nat) // reconnect
    | Dispatch(from: int, place: int)          // next_event goes down the batch to this entry

  // next_event skips the entry: its event has the pool's iteration number.
  predicate Skipped(s: State, i: int)
    requires 0 <= i < |s.pevents|
  {
    s.pevents[i].ev < |s.items| && s.items[s.pevents[i].ev].modIter == s.iters
  }

  ghost predicate Does(s: State, op: Operation, t: State)
    requires Whole(s)
  {
    match op
    case Add(fd, registered) => fd > 0 && s.count < s.max && t == Added(s, fd, registered)
    case Arm(val, deadline, k) =>
      && val in Live(s) && s.items[val].tvMs == 0 && deadline > 0
      && TimersInRange(s) && Divides(s, deadline, k) && t == ArmedAt(s, val, deadline, k)
    case Fire(val) => val in Live(s) && LinksInRange(s.items, val) && t == Untimed(s, val)
    case Fetch(wait) => wait.Ready? && KernelOk(s, wait) && t == NewBatch(s, wait.batch)
    case Del(val) => val in Live(s) && t == Closed(s, val)
    case Couple(a, b) =>
      && a in Live(s) && b in Live(s) && a != b && s.items[a].pair.None? && s.items[b].pair.None?
      && t == s.(items := Coupled(s.items, a, b))
    case Ring(a, b, c) =>
      && a in Live(s) && b in Live(s) && c in Live(s) && a != b && b != c && a != c
      && s.items[a].pair.None? && s.items[b].pair.None? && s.items[c].pair.None?
      && t == s.(items := Ringed(s.items, a, b, c))
    case Repair(client, former, remote) =>
      && client in Live(s) && former in Live(s) && remote in Live(s)
      && client != former && former != remote && client != remote
      && s.items[client].pair == Some(former) && s.items[former].pair == Some(client) && s.items[remote].pair.None?
      && t == s.(items := Repaired(s.items, client, former, remote))
    case Dispatch(from, place) =>
      && 0 <= place <= from < |s.pevents| && !Skipped(s, place)
      && (forall i :: place < i <= from ==> Skipped(s, i))
      && t == s
  }

  lemma WholeIs(t: State)
    requires Inv(t) && (SlotsOk(t) && InRange(Live(t), t.items) ==> Paired(Live(t), t.items))
    ensures Whole(t)
  {
    SlotsFromInv(t, {});
    LiveInRange(t);
  }

  lemma AddKeepsWhole(s: State, fd: int, registered: bool)
    requires Whole(s) && fd > 0 && s.count < s.max
    ensures Whole(Added(s, fd, registered))
  {
    hide Live, SlotsOk, Inv, Added, Paired, InvBut;
    var t := Added(s, fd, registered);
    AddedInv(s, fd, registered);
    AsNoneGone(t);
    SlotsFromInv(t, {});
    AddedPairs(s, fd, registered);
    forall e | e in Live(t) ensures PairsWell(Live(t), t.items, e) {
      if t.items[e].pair.Some? { PairedAt(Live(s), s.items, e); }
    }
    forall a, b | a in Live(t) && b in Live(t) ensures PairsApart(t.items, a, b) {
      if t.items[a].pair.Some? && t.items[a].pair == t.items[b].pair { PairedOnce(Live(s), s.items, a, b); }
    }
    PairedFrom(Live(t), t.items);
    WholeIs(t);
  }

  // A new event has no pair, and the others keep theirs.
  lemma AddedPairs(s: State, fd: int, registered: bool)
    requires SlotsOk(s) && s.count < s.max
    ensures var t := Added(s, fd, registered);
      && SlotsOk(t) && InRange(Live(t), t.items) && InRange(Live(s), s.items) && |t.items| == |s.items|
      && Live(s) <= Live(t)
      && (forall e :: e in Live(s) ==> e < |s.items| && t.items[e].pair == s.items[e].pair)
      && (forall e :: e in Live(t) && e !in Live(s) ==> t.items[e].pair.None?)
  {
    AddedSlots(s, fd, registered);
    LiveInRange(s);
    LiveInRange(Added(s, fd, registered));
    hide Live, SlotsOk;
  }

  lemma DividesAt(s: State, deadline: int, k: nat)
    requires TimersInRange(s) && Divides(s, deadline, k)
    ensures k <= |s.timers|
    ensures k > 0 ==> s.items[s.timers[k - 1]].tvMs < deadline
    ensures k < |s.timers| ==> s.items[s.timers[k]].tvMs >= deadline
  {
  }

  lemma ArmAtKeepsWhole(s: State, val: nat, deadline: int, k: nat)
    requires Whole(s) && val in Live(s) && val < |s.items| && s.items[val].tvMs == 0 && deadline > 0
    requires TimersInRange(s) && k <= |s.timers|
    requires k > 0 ==> s.items[s.timers[k - 1]].tvMs < deadline
    requires k < |s.timers| ==> s.items[s.timers[k]].tvMs >= deadline
    ensures Whole(ArmedAt(s, val, deadline, k))
  {
    hide Live, SlotsOk, Inv, Paired, ArmedAt, TimersInRange, Armed;
    var t := ArmedAt(s, val, deadline, k);
    ArmedInv(s, val, deadline, k);
    ArmedPairs(s, val, deadline, k);
    SamePairs(Live(s), s.items, t.items);
    WholeIs(t);
  }

  lemma ArmedPairs(s: State, val: nat, deadline: int, k: nat)
    requires Inv(s) && SlotsOk(s) && val in Live(s) && val < |s.items| && s.items[val].tvMs == 0
    requires TimersInRange(s) && k <= |s.timers|
    ensures var t := ArmedAt(s, val, deadline, k);
      && |t.items| == |s.items| && (forall e :: 0 <= e < |s.items| ==> t.items[e].pair == s.items[e].pair)
      && (SlotsOk(t) ==> Live(t) == Live(s))
  {
    var t := ArmedAt(s, val, deadline, k);
    TimerFacts(s, val);
    assert Distinct(s.timers);
    hide Inv;
    ArmedFields(s, s.items[val := s.items[val].(tvMs := deadline)], val, deadline, k);
    forall e | 0 <= e < |s.items| ensures t.items[e].pair == s.items[e].pair {
      assert TimerFieldsOnly(s.items[e], t.items[e], true);
    }
  }

  lemma FireKeepsWhole(s: State, val: nat)
    requires Whole(s) && val in Live(s) && LinksInRange(s.items, val)
    ensures Whole(Untimed(s, val))
  {
    UntimedInv(s, val, {});
    UntimedTimers(s, val);
    hide Live, SlotsOk, Inv, TimersOk, Paired, Untimed, LinkOut;
    SamePairs(Live(s), s.items, Untimed(s, val).items);
    WholeIs(Untimed(s, val));
  }

  lemma FetchKeepsWhole(s: State, wait: Wait)
    requires Whole(s) && wait.Ready? && KernelOk(s, wait)
    ensures Whole(NewBatch(s, wait.batch))
  {
    NewBatchInv(s, wait);
    hide Live, SlotsOk, Inv, Paired;
    WholeIs(NewBatch(s, wait.batch));
  }

  // Writing pair fields that form cycles.
  lemma RepairedWhole(s: State, t: State, changed: set<nat>)
    requires Whole(s) && OnlyPairs(s, t) && changed <= Live(s)
    requires InRange(Live(s), t.items) && Paired(Live(s), t.items)
    requires forall e :: e in Live(s) && e < |t.items| && t.items[e].pair.Some? ==> t.items[e].pair.value != e
    ensures Whole(t)
  {
    hide Inv, Paired;
    OnlyPairsSlots(s, t);
    forall e | e in Live(s) && e < |t.items| && t.items[e].pair.Some?
      ensures t.items[e].pair.value in Live(s) + {} && t.items[e].pair.value != e
    {
      PairedAt(Live(s), t.items, e);
    }
    AsNoneGone(s);
    OnlyPairsInv(s, t, {});
    AsNoneGone(t);
    WholeIs(t);
  }

  lemma NobodyItsOwn(s: State, r: seq<Item>, changed: set<nat>)
    requires Whole(s) && |r| == |s.items| && InRange(changed, s.items)
    requires forall e :: 0 <= e < |r| && e !in changed ==> r[e] == s.items[e]
    requires forall e :: e in changed && r[e].pair.Some? ==> r[e].pair.value != e
    ensures forall e :: e in Live(s) && e < |r| && r[e].pair.Some? ==> r[e].pair.value != e
  {
    forall e | e in Live(s) && e < |r| && r[e].pair.Some? ensures r[e].pair.value != e { NotItsOwnPair(s, e); }
  }

  // No event of a whole pool is its own pair.
  lemma NotItsOwnPair(s: State, e: nat)
    requires Whole(s) && e in Live(s)
    ensures s.items[e].pair != Some(e)
  {
    assert LiveItem(e, s.items[e], s.iters, e in s.touched, Live(s) + {});
  }

  lemma CoupleKeepsWhole(s: State, a: nat, b: nat)
    requires Whole(s) && a in Live(s) && b in Live(s) && a != b
    requires s.items[a].pair.None? && s.items[b].pair.None?
    ensures Whole(s.(items := Coupled(s.items, a, b)))
  {
    hide Inv, Live, SlotsOk, Paired;
    var t := s.(items := Coupled(s.items, a, b));
    CoupledCycle(s.items, a, b);
    NobodyItsOwn(s, t.items, {a, b});
    CoupledKeepsPairs(Live(s), s.items, a, b);
    RepairedWhole(s, t, {a, b});
  }

  lemma RingKeepsWhole(s: State, a: nat, b: nat, c: nat)
    requires Whole(s) && a in Live(s) && b in Live(s) && c in Live(s) && a != b && b != c && a != c
    requires s.items[a].pair.None? && s.items[b].pair.None? && s.items[c].pair.None?
    ensures Whole(s.(items := Ringed(s.items, a, b, c)))
  {
    hide Inv, Live, SlotsOk, Paired, Ringed;
    var t := s.(items := Ringed(s.items, a, b, c));
    RingedPairs(s.items, a, b, c);
    RingedCycle(s.items, a, b, c);
    NobodyItsOwn(s, t.items, {a, b, c});
    RingedKeepsPairs(Live(s), s.items, a, b, c);
    RepairedWhole(s, t, {a, b, c});
  }

  lemma RepairKeepsWhole(s: State, a: nat, b: nat, c: nat)
    requires Whole(s) && a in Live(s) && b in Live(s) && c in Live(s) && a != b && b != c && a != c
    requires s.items[a].pair == Some(b) && s.items[b].pair == Some(a) && s.items[c].pair.None?
    ensures Whole(s.(items := Repaired(s.items, a, b, c)))
  {
    hide Inv, Live, SlotsOk, Paired;
    var t := s.(items := Repaired(s.items, a, b, c));
    RepairedCycle(s.items, a, b, c);
    NobodyItsOwn(s, t.items, {a, b, c});
    RepairedKeepsPairs(Live(s), s.items, a, b, c);
    RepairedWhole(s, t, {a, b, c});
  }

  // What every operation keeps.
  lemma OperationKeepsWhole(s: State, op: Operation, t: State)
    requires Whole(s) && Does(s, op, t)
    ensures Whole(t)
  {
    hide Inv, Live, SlotsOk, Paired, ArmedAt, Divides, TimersInRange, Added, Untimed, NewBatch, Deleted, Closed, InvBut;
    match op
    case Add(fd, registered) => AddKeepsWhole(s, fd, registered);
    case Arm(val, deadline, k) =>
      DividesAt(s, deadline, k);
      ArmAtKeepsWhole(s, val, deadline, k);
    case Fire(val) => FireKeepsWhole(s, val);
    case Fetch(wait) => FetchKeepsWhole(s, wait);
    case Del(val) => NothingDangles(s, val);
    case Couple(a, b) => CoupleKeepsWhole(s, a, b);
    case Ring(a, b, c) => RingKeepsWhole(s, a, b, c);
    case Repair(client, former, remote) => RepairKeepsWhole(s, client, former, remote);
    case Dispatch(from, place) =>
  }

  ghost predicate Happened(states: seq<State>, ops: seq<Operation>) {
    && |states| == |ops| + 1
    && forall i :: 0 <= i < |ops| ==> Whole(states[i]) ==> Does(states[i], ops[i], states[i + 1])
  }

  // Over every run: slots and links match, the timer list is sorted, correctly linked and
  // complete, every live event's pair is live, and what has been touched since the current
  // batch began can be told from its iteration number.
  lemma {:induction false} EveryRunIsWhole(states: seq<State>, ops: seq<Operation>)
    requires Happened(states, ops) && Whole(states[0])
    ensures Whole(states[|ops|])
    decreases |ops|
  {
    if ops != [] {
      var n := |ops| - 1;
      hide Whole, Does;
      assert Happened(states[..n + 1], ops[..n]);
      EveryRunIsWhole(states[..n + 1], ops[..n]);
      OperationKeepsWhole(states[n], ops[n], states[n + 1]);
    }
  }

  // The pool that init_pool makes; what the items hold before they are first used does not matter.
  ghost function Initial(max: nat, garbage: seq<Item>): State {
    State(max, 0, seq(max, i => i), garbage, 0, None, None, [], [], {})
  }

  lemma InitialIsWhole(max: nat, garbage: seq<Item>)
    requires |garbage| == max
    ensures Whole(Initial(max, garbage))
  {
    var s := Initial(max, garbage);
    assert s.links[..0] == [] && Members([]) == {};
    assert SlotsOk(s) && Live(s) == {};
  }

  // The operation adds the event, or deletes it.
  ghost predicate Touches(s: State, op: Operation, ev: nat) {
    match op
    case Add(_, _) => s.count < |s.links| && ev == s.links[s.count]
    case Del(val) => SlotsOk(s) && InRange(Live(s), s.items) && ev in Chain(Live(s), s.items, val)
    case _ => false
  }

  // What is touched stays so until the next batch.
  lemma TouchedGrows(s: State, op: Operation, t: State)
    requires Whole(s) && Does(s, op, t) && !op.Fetch?
    ensures s.touched <= t.touched
    ensures forall ev :: Touches(s, op, ev) ==> ev in t.touched
  {
    hide Whole, Live, SlotsOk, Chain, Closed, ArmedAt, Untimed;
    match op
    case Del(val) => DeletedTouches(s, val);
    case Arm(val, deadline, k) => ArmedTouches(s, val, deadline, k);
    case Fire(val) => UntimedPlain(s, val);
    case _ =>
  }

  lemma DeletedTouches(s: State, val: nat)
    requires Whole(s) && val in Live(s)
    ensures Closed(s, val).touched == s.touched + Members(Chain(Live(s), s.items, val))
  {
    hide Live, SlotsOk, Chain, Closed, Inv;
    NothingDangles(s, val);
  }

  lemma ArmedTouches(s: State, val: nat, deadline: int, k: nat)
    requires Whole(s) && val in Live(s) && k <= |s.timers| && TimersInRange(s)
    ensures val < |s.items|
    ensures ArmedAt(s, val, deadline, k).touched == s.touched
  {
    hide LinkIn, PutAt, Inv;
  }

  // The operations i to k - 1 fetch no batch.
  ghost predicate SameBatch(ops: seq<Operation>, i: nat, k: nat) {
    forall j :: i <= j < k && j < |ops| ==> !ops[j].Fetch?
  }

  lemma {:induction false} StaysTouched(states: seq<State>, ops: seq<Operation>, i: nat, k: nat, ev: nat)
    requires Happened(states, ops) && (forall j :: 0 <= j <= |ops| ==> Whole(states[j]))
    requires i <= k <= |ops| && SameBatch(ops, i, k) && ev in states[i].touched
    ensures ev in states[k].touched
    decreases k
  {
    hide Whole, Does, Touches;
    if i < k {
      StaysTouched(states, ops, i, k - 1, ev);
      TouchedGrows(states[k - 1], ops[k - 1], states[k]);
    }
  }

  // In every run from the initial pool, what next_event returns is a live event that nothing has
  // added or deleted since the batch it comes from was fetched.
  lemma NothingStaleIsDispatched(max: nat, garbage: seq<Item>, states: seq<State>, ops: seq<Operation>, k: nat)
    requires |garbage| == max && Happened(states, ops) && states[0] == Initial(max, garbage)
    requires k < |ops| && ops[k].Dispatch?
    ensures Whole(states[k]) && SlotsOk(states[k]) && 0 <= ops[k].place < |states[k].pevents|
    ensures var ev := states[k].pevents[ops[k].place].ev;
      && ev in Live(states[k])
      && forall i: nat :: i < k && SameBatch(ops, i + 1, k) && !ops[i].Fetch? ==> !Touches(states[i], ops[i], ev)
  {
    hide Inv, Does, Touches, SlotsOk, Live;
    InitialIsWhole(max, garbage);
    forall j | 0 <= j <= |ops| ensures Whole(states[j]) { PrefixIsWhole(states, ops, j); }
    DispatchedIsLive(states[k], ops[k], states[k + 1]);
    var ev := states[k].pevents[ops[k].place].ev;
    forall i: nat | i < k && SameBatch(ops, i + 1, k) && !ops[i].Fetch? ensures !Touches(states[i], ops[i], ev) {
      TouchedGrows(states[i], ops[i], states[i + 1]);
      if Touches(states[i], ops[i], ev) { StaysTouched(states, ops, i + 1, k, ev); }
    }
  }

  lemma PrefixIsWhole(states: seq<State>, ops: seq<Operation>, j: nat)
    requires Happened(states, ops) && Whole(states[0]) && j <= |ops|
    ensures Whole(states[j])
  {
    hide Whole, Does;
    assert Happened(states[..j + 1], ops[..j]);
    EveryRunIsWhole(states[..j + 1], ops[..j]);
  }

  lemma DispatchedIsLive(s: State, op: Operation, t: State)
    requires Whole(s) && op.Dispatch? && Does(s, op, t)
    ensures SlotsOk(s) && 0 <= op.place < |s.pevents|
    ensures s.pevents[op.place].ev in Live(s) && s.pevents[op.place].ev !in s.touched
  {
    hide Live, SlotsOk, Inv;
    StaleByIteration(s, op.place);
  }

  // The operation is what the code of next_event finds.
  lemma DispatchIsDispatched(s: State, from: int, place: int)
    requires Whole(s) && 0 <= place <= from < |s.pevents|
    ensures SlotsOk(s)
    ensures Does(s, Dispatch(from, place), s)
      <==> Dispatched(s, from, place - 1, s.pevents[place].ev, s.pevents[place].events)
  {
    hide Live, SlotsOk, Inv;
    forall i | 0 <= i < |s.pevents|
      ensures Skipped(s, i) <==> s.pevents[i].ev in s.touched
      ensures s.pevents[i].ev in Live(s) + s.touched
    {
      StaleByIteration(s, i);
    }
  }

  // ---------------------------------------------------------------------------------------
  // The code
  // ---------------------------------------------------------------------------------------

  class Pool {
    var max: nat
    var count: nat
    var links: seq<nat>
    var items: seq<Item>
    var iters: nat
    var tvStart: Option<nat>
    var tvEnd: Option<nat>
    var pevents: seq<PEvent>
    ghost var timers: seq<nat>
    ghost var touched: set<nat>

    ghost function Now(): State
      reads this
    {
      State(max, count, links, items, iters, tvStart, tvEnd, pevents, timers, touched)
    }

    // init_pool
    constructor (max: nat, garbage: seq<Item>)
      requires |garbage| == max
      ensures Now() == Initial(max, garbage) && Whole(Now())
    {
      InitialIsWhole(max, garbage);
      this.max, count, iters := max, 0, 0;
      links := seq(max, i => i);
      items := garbage;
      tvStart, tvEnd := None, None;
      pevents := [];
      timers, touched := [], {};
    }

    // add_event; `registered` says whether epoll_ctl succeeds.
    method AddEvent(fd: int, registered: bool) returns (r: Option<nat>)
      requires Inv(Now()) && fd > 0
      modifies this
      ensures Inv(Now())
      ensures if old(count) >= old(max) then r.None? && Now() == old(Now())
              else Now() == Added(old(Now()), fd, registered)
                   && r == if registered then Some(old(links[count])) else None
    {
      hide Inv, Live, TimersOk;
      if count >= max {
        return None;
      }
      SlotsOfInv(Now());
      AddedInv(Now(), fd, registered);
      var val := links[count];
      items := items[val := Item(fd, count, iters, 0, None, None, None)];
      touched := touched + {val};
      if !registered {
        return None;
      }
      count := count + 1;
      r := Some(val);
    }

    // remove_timer
    method RemoveTimer(val: nat)
      requires LinksInRange(items, val)
      requires items[val].tvPrev != Some(val) && items[val].tvNext != Some(val)
      modifies this`items, this`tvStart, this`tvEnd, this`timers
      ensures Now() == Untimed(old(Now()), val)
    {
      if items[val].tvPrev.Some? {
        var prev := items[val].tvPrev.value;
        items := items[prev := items[prev].(tvNext := items[val].tvNext)];
      }
      if items[val].tvNext.Some? {
        var next := items[val].tvNext.value;
        items := items[next := items[next].(tvPrev := items[val].tvPrev)];
      }
      if tvStart == Some(val) { tvStart := items[val].tvNext; }
      if tvEnd == Some(val) { tvEnd := items[val].tvPrev; }
      items := items[val := items[val].(tvMs := 0, tvNext := None, tvPrev := None)];
      timers := Omit(timers, val);
    }

    // The first part of del_event: close the event and stop its timer.
    method CloseAndStop(val: nat)
      requires LinksInRange(items, val)
      requires items[val].tvPrev != Some(val) && items[val].tvNext != Some(val)
      modifies this`items, this`tvStart, this`tvEnd, this`timers, this`touched
      ensures LinksInRange(old(items), val) && val < |LinkOut(old(items), val)|
      ensures Now() == var s1 := Untimed(old(Now()), val);
        s1.(items := s1.items[val := Close(s1.items[val], s1.iters)], touched := s1.touched + {val})
    {
      CloseCommutes(items, val, iters);
      assert |LinkOut(items, val)| == |items|;
      hide LinkOut, Omit;
      items := items[val := items[val].(fd := -1)];
      items := items[val := items[val].(modIter := iters)];
      touched := touched + {val};
      assert items == old(items)[val := Close(old(items)[val], iters)];
      RemoveTimer(val);
    }

    // The second part: leave the live prefix.
    method LeaveLive(val: nat)
      requires 0 < count <= |links| && val < |items| && links[count - 1] < |items|
      requires 0 <= items[val].index < count && links[items[val].index] == val
      requires links[count - 1] == val ==> items[val].index == count - 1
      modifies this`count, this`links, this`items
      ensures Now() == SwappedOut(old(Now()), val)
    {
      count := count - 1;
      var ev := links[count];
      if ev != val {
        var index := items[val].index;
        links := links[index := ev];
        links := links[count := val];
        items := items[ev := items[ev].(index := index)];
      }
    }

    method Unregister(val: nat, ghost gone: set<nat>)
      requires InvBut(Now(), gone) && val in Live(Now())
      modifies this
      ensures LinksInRange(old(items), val)
      ensures SlotsOk(Untimed(old(Now()), val)) && val in Live(Untimed(old(Now()), val))
      ensures Now() == Dropped(Untimed(old(Now()), val), val)
      ensures InvBut(Now(), gone + {val}) && Live(Now()) == Live(old(Now())) - {val}
    {
      hide InvBut, Live, SlotsOk, LinkOut, Omit, LinksInRange;
      UnregisterFacts(Now(), val, gone);
      CloseAndStop(val);
      LeaveLive(val);
    }

    // del_event.  The events `gone` are those being deleted by the calls around this one.
    method DelEvent(val: nat, ghost gone: set<nat>)
      requires InvBut(Now(), gone) && val in Live(Now()) + gone
      modifies this
      ensures Now() == Closed(old(Now()), val)
      ensures InRange(Live(old(Now())), old(items))
      ensures var d := Members(Chain(Live(old(Now())), old(items), val));
        Deleted(old(Now()), Now(), d) && InvBut(Now(), gone + d)
      decreases |Live(Now())|, 0
    {
      hide InvBut, SlotsOk, DeletedBut, Live, LinksInRange, Untimed, Dropped, Chain, Unpaired, Members, InRange, Closed;
      ghost var s0 := Now();
      DelFacts(s0, val, gone);
      ClosedIs(s0, val, gone);
      if items[val].fd == -1 {
        ClosedStays(s0, val);
        return;
      }
      assert items[val].fd >= -1 && items[val].modIter <= iters;
      ClosedUnfolds(s0, val, gone);
      Unregister(val, gone);
      if items[val].pair.Some? {
        DelPair(val, s0, gone);
      }
    }

    // The end of del_event: the event of state `s0` has been taken out, and its pair follows.
    method DelPair(val: nat, ghost s0: State, ghost gone: set<nat>)
      requires InvBut(s0, gone) && SlotsOk(s0) && val in Live(s0) && LinksInRange(s0.items, val)
      requires SlotsOk(Untimed(s0, val)) && val in Live(Untimed(s0, val))
      requires Now() == Dropped(Untimed(s0, val), val) && InvBut(Now(), gone + {val})
      requires Live(Now()) == Live(s0) - {val} && InRange(Live(s0), s0.items)
      requires val < s0.max == max == |items| && items[val].pair.Some? && items[val].pair == s0.items[val].pair
      requires items[val].pair.value != val && items[val].pair.value < max
      modifies this
      ensures Now() == var s1, e := old(Now()), old(items)[val].pair.value;
        Closed(s1.(items := Unpaired(s1.items, val, e)), e)
      decreases |Live(Now())|, 1
    {
      hide InvBut, SlotsOk, DeletedBut, Live, LinksInRange, Untimed, Dropped, Chain, Unpaired, Members, InRange, Closed;
      var e := items[val].pair.value;
      PairFacts(s0, Now(), val, e, gone);
      ClearPair(val, e);
      DelEvent(e, gone + {val});
    }

    method ClearPair(val: nat, e: nat)
      requires val < |items| && e < |items| && items[val].pair == Some(e)
      modifies this`items
      ensures items == Unpaired(old(items), val, e)
    {
      if items[e].pair == Some(val) {
        items := items[e := items[e].(pair := None)];
      }
      items := items[val := items[val].(pair := None)];
    }

    // del_event as the rest of the program calls it.
    method Delete(val: nat)
      requires Whole(Now()) && val in Live(Now())
      modifies this
      ensures Whole(Now()) && Now() == Closed(old(Now()), val)
      ensures InRange(Live(old(Now())), old(items))
      ensures Deleted(old(Now()), Now(), Members(Chain(Live(old(Now())), old(items), val)))
    {
      hide Inv, Live, SlotsOk, DeletedBut, Paired, Chain, InvBut, Closed, Members;
      AsNoneGone(Now());
      NothingDangles(Now(), val);
      DelEvent(val, {});
    }

    // destroy_pool, as far as events go.
    method DestroyPool()
      requires Whole(Now())
      modifies this
      ensures Whole(Now()) && Live(Now()) == {} && timers == []
    {
      hide Whole, Live, SlotsOk, Deleted, Chain;
      LiveEnds(Now());
      while count > 0
        invariant Whole(Now()) && SlotsOk(Now())
        decreases |Live(Now())|
      {
        ghost var s := Now();
        LiveEnds(s);
        Delete(links[0]);
        DeletedFewer(s, Now(), s.links[0]);
      }
      LiveEnds(Now());
    }

    lemma LiveEnds(s: State)
      requires Whole(s)
      ensures SlotsOk(s) && InRange(Live(s), s.items)
      ensures s.count > 0 ==> |s.links| > 0 && s.links[0] in Live(s)
      ensures s.count == 0 ==> Live(s) == {} && s.timers == []
    {
      if s.count > 0 {
        assert s.links[..s.count][0] == s.links[0];
      } else {
        FirstTimerLives(s);
      }
    }

    lemma FirstTimerLives(s: State)
      requires Inv(s)
      ensures s.timers == [] || s.timers[0] in Live(s)
    {
      if s.timers != [] { assert s.timers[0] in s.timers; }
    }

    lemma DeletedFewer(s: State, t: State, val: nat)
      requires SlotsOk(s) && InRange(Live(s), s.items) && val in Live(s)
      requires Deleted(s, t, Members(Chain(Live(s), s.items, val)))
      ensures SlotsOk(t) && |Live(t)| < |Live(s)|
    {
      assert val in Chain(Live(s), s.items, val);
      assert Live(t) < Live(s);
      Smaller(Live(t), Live(s));
    }

    lemma Smaller(a: set<nat>, b: set<nat>)
      requires a < b
      ensures |a| < |b|
    {
      assert b == a + (b - a);
    }

    // The loop of set_timer: from the end back to the last event with an earlier deadline.
    method FindTimerPlace(deadline: int) returns (prev: Option<nat>, next: Option<nat>, ghost k: nat)
      requires TimersOk(items, timers, tvStart, tvEnd)
      ensures k <= |timers| && prev == At(timers, k - 1) && next == At(timers, k)
      ensures k > 0 ==> timers[k - 1] < |items| && items[timers[k - 1]].tvMs < deadline
      ensures k < |timers| ==> timers[k] < |items| && items[timers[k]].tvMs >= deadline
    {
      hide InOrder, Distinct;
      next, prev := None, tvEnd;
      k := |timers|;
      while prev.Some? && items[prev.value].tvMs >= deadline
        invariant 0 <= k <= |timers| && prev == At(timers, k - 1) && next == At(timers, k)
        invariant k < |timers| ==> items[timers[k]].tvMs >= deadline
        decreases k
      {
        assert NodeOk(items, timers, k - 1);
        next := prev;
        prev := items[prev.value].tvPrev;
        k := k - 1;
      }
    }

    // set_timer; `now` is what time_ms returns.
    method SetTimer(val: nat, now: int, ms: int)
      requires Inv(Now()) && val in Live(Now()) && 0 < now && 0 <= ms
      modifies this`items, this`tvStart, this`tvEnd, this`timers
      ensures val < |old(items)|
      ensures old(items)[val].tvMs != 0 ==> Now() == old(Now())
      ensures old(items)[val].tvMs == 0 ==> Armed(old(Now()), Now(), val, now + ms)
      ensures Inv(Now())
    {
      LiveInRange(Now());
      InRangeAt(Now(), val);
      hide Inv, SlotsOk, Live, TimersOk, Armed, PutAt, LinkIn;
      if items[val].tvMs != 0 {
        return;
      }
      ghost var s := Now();
      TimerFacts(s, val);
      ghost var k := StartTimer(val, now + ms);
      ArmedInv(s, val, now + ms, k);
    }

    // set_timer for an event without a deadline; it ends up at position k of the list.
    method StartTimer(val: nat, deadline: int) returns (ghost k: nat)
      requires TimersOk(items, timers, tvStart, tvEnd) && val < |items| && val !in timers && TimersInRange(Now())
      modifies this`items, this`tvStart, this`tvEnd, this`timers
      ensures k <= |old(timers)| && TimersInRange(old(Now()))
      ensures Now() == ArmedAt(old(Now()), val, deadline, k)
      ensures k > 0 ==> old(items)[old(timers)[k - 1]].tvMs < deadline
      ensures k < |old(timers)| ==> old(items)[old(timers)[k]].tvMs >= deadline
    {
      hide TimersOk, PutAt, LinkIn;
      ghost var s := Now();
      items := items[val := items[val].(tvMs := deadline)];
      TimersElsewhere(s.items, items, timers, tvStart, tvEnd);
      var prev, next;
      prev, next, k := FindTimerPlace(deadline);
      assert k > 0 ==> timers[k - 1] in timers;
      assert k < |timers| ==> timers[k] in timers;
      LinkTimer(val, prev, next, k);
    }

    // The rest of set_timer.
    method LinkTimer(val: nat, prev: Option<nat>, next: Option<nat>, ghost k: nat)
      requires TimersOk(items, timers, tvStart, tvEnd) && val < |items| && k <= |timers|
      requires prev == At(timers, k - 1) && next == At(timers, k)
      modifies this`items, this`tvStart, this`tvEnd, this`timers
      ensures k > 0 ==> old(timers)[k - 1] < |old(items)|
      ensures k < |old(timers)| ==> old(timers)[k] < |old(items)|
      ensures Now() == var s := old(Now());
        s.(items := LinkIn(s.items, val, At(s.timers, k - 1), At(s.timers, k)),
           timers := PutAt(s.timers, k, val),
           tvStart := if k == 0 then Some(val) else s.tvStart,
           tvEnd := if k == |s.timers| then Some(val) else s.tvEnd)
    {
      EndsOf(Now(), k);
      assert k > 0 ==> timers[k - 1] < |items|;
      assert k < |timers| ==> timers[k] < |items|;
      hide TimersOk, PutAt;
      items := items[val := items[val].(tvNext := next, tvPrev := prev)];
      if next.Some? { items := items[next.value := items[next.value].(tvPrev := Some(val))]; }
      if prev.Some? { items := items[prev.value := items[prev.value].(tvNext := Some(val))]; }
      if tvStart.None? || next == tvStart { tvStart := Some(val); }
      if tvEnd.None? || prev == tvEnd { tvEnd := Some(val); }
      timers := PutAt(timers, k, val);
    }

    lemma InRangeAt(s: State, val: nat)
      requires SlotsOk(s) && val in Live(s)
      ensures val < |s.items|
    {
    }

    // The first and the last event of the list are where it begins and ends.
    lemma EndsOf(s: State, k: nat)
      requires TimersOk(s.items, s.timers, s.tvStart, s.tvEnd) && k <= |s.timers|
      ensures s.tvStart.None? || At(s.timers, k) == s.tvStart <==> k == 0
      ensures s.tvEnd.None? || At(s.timers, k - 1) == s.tvEnd <==> k == |s.timers|
    {
    }

    // The part of the loop of next_event that walks down the batch it has.
    method Scan(offs: int) returns (r: Option<nat>, newOffs: int, newType: int)
      requires Inv(Now()) && SlotsOk(Now()) && -1 <= offs < |pevents|
      ensures if AllStale(Now(), offs) then r.None? && newOffs == -1
              else r.Some? && Dispatched(Now(), offs, newOffs, r.value, newType)
    {
      hide Inv, SlotsOk, Live;
      newOffs, newType := offs, 0;
      while newOffs >= 0
        invariant -1 <= newOffs <= offs
        invariant forall j :: newOffs < j <= offs ==> pevents[j].ev in touched
      {
        var i := newOffs;
        StaleByIteration(Now(), i);
        var val := pevents[i].ev;
        newOffs := i - 1;
        if items[val].modIter == iters { continue; }
        newType := pevents[i].events;
        return Some(val), newOffs, newType;
      }
      return None, newOffs, newType;
    }

    // What epoll_wait delivers becomes the current batch.
    method StartBatch(wait: Wait)
      requires Inv(Now()) && SlotsOk(Now()) && KernelOk(Now(), wait) && wait.Ready?
      modifies this`pevents, this`iters, this`touched
      ensures Inv(Now()) && SlotsOk(Now()) && Now() == NewBatch(old(Now()), wait.batch)
    {
      NewBatchInv(Now(), wait);
      SlotsOfInv(NewBatch(Now(), wait.batch));
      hide Inv, SlotsOk, Live, KernelOk;
      pevents := wait.batch;
      iters := iters + 1;
      touched := {};
    }

    // next_event.  Its loop returns to epoll_wait at most once, for nothing in a new batch is
    // stale.
    method NextEvent(offs: int, etype: int, wait: Wait) returns (r: Option<nat>, newOffs: int, newType: int)
      requires Inv(Now()) && SlotsOk(Now()) && -1 <= offs < |pevents| && KernelOk(Now(), wait)
      modifies this`pevents, this`iters, this`touched
      ensures Inv(Now()) && SlotsOk(Now())
      ensures AllStale(old(Now()), offs) && wait.Ready? ==>
        && Now() == NewBatch(old(Now()), wait.batch)
        && r.Some? && Dispatched(Now(), |pevents| - 1, newOffs, r.value, newType)
      ensures AllStale(old(Now()), offs) && !wait.Ready? ==>
        && Now() == old(Now()) && r.None? && newOffs == -1 && newType == if wait.TimedOut? then POLLTIMEOUT else etype
      ensures !AllStale(old(Now()), offs) ==>
        Now() == old(Now()) && r.Some? && Dispatched(Now(), offs, newOffs, r.value, newType)
    {
      r, newOffs, newType := Scan(offs);
      if r.Some? {
        return;
      }
      hide Inv, SlotsOk, Live, Dispatched;
      newType := etype;
      match wait
      case TimedOut => newType := POLLTIMEOUT;
      case Failed =>
      case Ready(batch) =>
        NothingStale(Now(), wait);
        StartBatch(wait);
        r, newOffs, newType := Scan(|pevents| - 1);
    }

    lemma NothingStale(s: State, w: Wait)
      requires SlotsOk(s) && w.Ready? && KernelOk(s, w)
      ensures |w.batch| > 0 && !AllStale(NewBatch(s, w.batch), |w.batch| - 1)
    {
      assert w.batch[0].ev !in NewBatch(s, w.batch).touched;
    }

    // next_event_tv.  It fires the earliest timer when that is due, when epoll_wait has timed
    // out, and also when epoll_wait fails while `etype` still says timeout from an earlier call.
    method NextEventTv(offs: int, etype: int, now: int, wait: Wait)
      returns (r: Option<nat>, newOffs: int, newType: int, ghost fired: bool)
      requires Inv(Now()) && SlotsOk(Now()) && -1 <= offs < |pevents| && KernelOk(Now(), wait)
      modifies this
      ensures Inv(Now()) && SlotsOk(Now())
      ensures forall e :: e in old(timers) ==> e < |old(items)|
      ensures fired <==> MayFire(old(Now()), offs, etype, now, wait)
      ensures fired ==>
        && r == Some(old(timers)[0]) && newType == POLLTIMEOUT
        && (forall e :: e in old(timers) ==> old(items)[r.value].tvMs <= old(items)[e].tvMs)
        && LinksInRange(old(items), r.value) && Now() == Untimed(old(Now()), r.value)
      ensures !fired && r.Some? ==>
        Dispatched(Now(), if iters == old(iters) then offs else |pevents| - 1, newOffs, r.value, newType)
      ensures r.Some? ==> r.value in Live(Now())
    {
      hide Inv, SlotsOk, Live, AllStale, Untimed, LinksInRange, KernelOk;
      ghost var s := Now();
      SlotsOfInv(s);
      LiveInRange(s);
      EarliestFirst(s);
      fired := false;
      if tvStart.None? {
        r, newOffs, newType := NextEvent(offs, etype, wait);
        return;
      }
      r, newOffs, newType := None, offs, etype;
      var ms := items[tvStart.value].tvMs - now;
      if ms > 0 {
        r, newOffs, newType := NextEvent(offs, etype, wait);
      } else {
        newType := POLLTIMEOUT;
      }
      if r.None? && tvStart.Some? && newType == POLLTIMEOUT {
        r := tvStart;
        fired := true;
        FireFacts(s);
        RemoveTimer(r.value);
      }
    }

    lemma EarliestFirst(s: State)
      requires Inv(s)
      ensures forall e :: e in s.timers ==> e < |s.items|
      ensures s.tvStart.None? <==> s.timers == []
      ensures s.timers != [] ==>
        && s.tvStart == Some(s.timers[0])
        && forall e :: e in s.timers ==> s.items[s.timers[0]].tvMs <= s.items[e].tvMs
    {
      if s.timers != [] { assert s.timers[0] in s.timers; }
    }

    lemma FireFacts(s: State)
      requires Inv(s) && s.timers != []
      ensures var val := s.timers[0];
        && LinksInRange(s.items, val) && s.items[val].tvPrev != Some(val) && s.items[val].tvNext != Some(val)
        && Inv(Untimed(s, val)) && SlotsOk(s) && SlotsOk(Untimed(s, val))
        && val in Live(s) && Live(Untimed(s, val)) == Live(s)
    {
      SlotsOfInv(s);
      assert s.timers[0] in s.timers;
      UntimedInv(s, s.timers[0], {});
      NextToEachOther(s.items, s.timers, s.tvStart, s.tvEnd, 0);
    }
  }
}