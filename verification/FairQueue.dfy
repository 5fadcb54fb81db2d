// The fair packet queue (badvpn/flow/PacketPassFairQueue.c).
//
// Flows carry 64-bit virtual times.  The queue sends the queued flow with the smallest
// (time, address) pair, charges it packet_weight + length when the send completes, and
// subtracts a common amount from every flow when that charge would pass the 64-bit maximum.
//
// `State` and `Step` describe the queue on unbounded integers; flows are named by their
// addresses.  Class `Queue` is the code, with its 64-bit wrap-around, and each of its handlers
// is proved to perform exactly one `Step`.

module FairQueue {
  import opened Common

  const MAX_TIME: nat := 0xFFFF_FFFF_FFFF_FFFF  // FAIRQUEUE_MAX_TIME
  const MODULUS: nat := 0x1_0000_0000_0000_0000

  // The place of a flow in memory; compare_flows breaks ties between equal times with it.
  type Address = nat

  // ---------------------------------------------------------------------------------------
  // The queue on integers
  // ---------------------------------------------------------------------------------------

  datatype State = State(
    weight: nat,                 // packet_weight
    mtu: nat,                    // MTU of the output
    time: map<Address, nat>,     // of every flow in flows_list
    len: map<Address, nat>,      // length of the packet each flow last submitted
    tree: seq<Address>,          // queued_tree in order
    sending: Option<Address>,
    sendingLen: nat,
    previous: Option<Address>,
    job: bool,                   // schedule_job is set
    freeing: bool)

  datatype Event =
    | Submit(flow: Address, len: nat)  // a flow's input calls input_handler_send
    | Done                             // the output calls output_handler_done
    | Job                              // the pending schedule job runs
    | Join(flow: Address)              // PacketPassFairQueueFlow_Init
    | Leave(flow: Address)             // PacketPassFairQueueFlow_Free
    | PrepareFree

  // compare_flows(a, b) < 0
  predicate Before(time: map<Address, nat>, a: Address, b: Address)
    requires a in time && b in time
  {
    time[a] < time[b] || (time[a] == time[b] && a < b)
  }

  ghost predicate Sorted(time: map<Address, nat>, tree: seq<Address>) {
    && (forall f :: f in tree ==> f in time)
    && forall i, j :: 0 <= i < j < |tree| ==> Before(time, tree[i], tree[j])
  }

  // The tree with `f` put behind everything that sorts before it.
  function TreeInsert(time: map<Address, nat>, tree: seq<Address>, f: Address): (r: seq<Address>)
    requires f in time && forall g :: g in tree ==> g in time
    ensures forall g :: g in r <==> g in tree || g == f
  {
    if tree == [] || !Before(time, tree[0], f) then [f] + tree
    else
      assert tree == [tree[0]] + tree[1..];
      [tree[0]] + TreeInsert(time, tree[1..], f)
  }

  function Without(s: seq<Address>, x: Address): seq<Address> {
    if s == [] then [] else if s[0] == x then Without(s[1..], x) else [s[0]] + Without(s[1..], x)
  }

  ghost predicate WellFormed(s: State) {
    && s.len.Keys == s.time.Keys
    && (forall f :: f in s.tree ==> f in s.time)
    && (s.sending.Some? ==> s.sending.value in s.time)
    && (s.previous.Some? ==> s.previous.value in s.time)
  }

  // What every handler keeps.
  ghost predicate Inv(s: State) {
    && WellFormed(s)
    && 0 < s.weight && s.weight + s.mtu <= MAX_TIME
    && (forall f :: f in s.time ==> s.time[f] <= MAX_TIME)
    && (forall f :: f in s.tree ==> s.len[f] <= s.mtu)
    && Sorted(s.time, s.tree)
    && (s.sending.Some? ==>
          && s.sending.value !in s.tree
          && s.sendingLen <= s.mtu
          && !s.job
          && forall f :: f in s.tree ==> s.time[s.sending.value] <= s.time[f])
    && (s.previous.Some? ==> s.previous.value !in s.tree && s.job)
    // work conservation
    && (!s.freeing && s.sending.None? && !s.job ==> s.tree == [])
  }

  // What the queue's callers and the interfaces around it promise about each call.
  ghost predicate Enabled(s: State, e: Event)
  {
    match e
    case Submit(f, n) => f in s.time && s.sending != Some(f) && f !in s.tree && !s.freeing && n <= s.mtu
    case Done => s.sending.Some? && !s.freeing
    case Job => s.job && !s.freeing
    case Join(f) => !s.freeing && f !in s.time
    case Leave(f) => f in s.time && (s.freeing || s.sending != Some(f))
    case PrepareFree => true
  }

  // get_current_time
  ghost function CurrentTime(s: State): nat
    requires WellFormed(s)
  {
    if s.sending.Some? then s.time[s.sending.value]
    else if s.previous.Some? && (s.tree == [] || s.time[s.previous.value] < s.time[s.tree[0]]) then
      s.time[s.previous.value]
    else if s.tree != [] then s.time[s.tree[0]]
    else 0
  }

  // A flow that submits a packet right after its last one keeps its time; any other flow is
  // raised to the current time.
  ghost function Raised(s: State, f: Address): State
    requires WellFormed(s) && f in s.time
  {
    if s.previous == Some(f) then s.(previous := None)
    else s.(time := s.time[f := Max(s.time[f], CurrentTime(s))])
  }

  // What increment_sent_flow takes off every flow before an overflowing charge.
  ghost function Subtrahend(s: State, f: Address): nat
    requires WellFormed(s) && f in s.time
  {
    if s.tree == [] then s.time[f] else s.time[s.tree[0]]
  }

  // The time of flow `g` after flow `f` is charged `amount`: on integers, so that nothing
  // wraps.  An overflowing charge first takes `sub` off everybody, but off the other flows no
  // more than they have.
  ghost function ChargedTime(time: map<Address, nat>, f: Address, sub: nat, amount: nat, g: Address): nat
    requires f in time && g in time
  {
    if amount > MAX_TIME - time[f] then
      if g == f then Max(0, time[f] - sub + amount) else Max(0, time[g] - sub)
    else if g == f then time[f] + amount
    else time[g]
  }

  ghost function ChargedTimes(time: map<Address, nat>, f: Address, sub: nat, amount: nat): map<Address, nat>
    requires f in time
  {
    map g | g in time :: ChargedTime(time, f, sub, amount, g)
  }

  ghost function Schedule(s: State): State
    requires WellFormed(s) && s.tree != []
  {
    var f := s.tree[0];
    s.(tree := s.tree[1..], sending := Some(f), sendingLen := s.len[f])
  }

  ghost function Step(s: State, e: Event): State
    requires WellFormed(s) && Enabled(s, e)
  {
    match e
    case Submit(f, n) =>
      var s1 := Raised(s, f);
      var s2 := s1.(len := s1.len[f := n], tree := TreeInsert(s1.time, s1.tree, f));
      if s2.sending.None? && !s2.job then Schedule(s2) else s2
    case Done =>
      var f := s.sending.value;
      s.(time := ChargedTimes(s.time, f, Subtrahend(s, f), s.weight + s.sendingLen),
         sending := None, previous := Some(f), job := true)
    case Job =>
      var s1 := s.(job := false, previous := None);
      if s1.tree != [] then Schedule(s1) else s1
    case Join(f) => s.(time := s.time[f := 0], len := s.len[f := 0])
    case Leave(f) =>
      s.(time := s.time - {f}, len := s.len - {f}, tree := Without(s.tree, f),
         sending := if s.sending == Some(f) then None else s.sending,
         previous := if s.previous == Some(f) then None else s.previous)
    case PrepareFree => s.(freeing := true)
  }

  // The ASSERTs each handler executes, in terms of the state it starts from.
  ghost predicate AssertsHold(s: State, e: Event) {
    match e
    case Submit(f, n) =>
      && s.sending != Some(f) && f !in s.tree && !s.freeing
      && (s.sending.None? && !s.job ==> s.previous.None? || s.previous == Some(f))
    case Done => s.sending.Some? && s.previous.None? && !s.job && !s.freeing && s.sending.value !in s.tree
    case Job => s.sending.None? && !s.freeing
    case Join(f) => !s.freeing
    case Leave(f) => s.freeing || s.sending != Some(f)
    case PrepareFree => true
  }

  // ---------------------------------------------------------------------------------------
  // Invariant over all runs
  // ---------------------------------------------------------------------------------------

  lemma {:induction false} TreeInsertSorted(time: map<Address, nat>, tree: seq<Address>, f: Address)
    requires f in time && Sorted(time, tree) && f !in tree
    ensures Sorted(time, TreeInsert(time, tree, f))
  {
    if tree != [] && Before(time, tree[0], f) {
      TreeInsertSorted(time, tree[1..], f);
      var r := TreeInsert(time, tree[1..], f);
      forall j | 0 <= j < |r| ensures Before(time, tree[0], r[j]) {
        assert r[j] in r;
        assert r[j] == f || r[j] in tree[1..];
      }
    }
  }

  lemma {:induction false} WithoutIs(s: seq<Address>, x: Address)
    requires Distinct(s)
    ensures Distinct(Without(s, x))
    ensures forall y :: y in Without(s, x) <==> y in s && y != x
  {
    hide Distinct;
    if s != [] {
      HeadApart(s);
      WithoutIs(s[1..], x);
      InFront(s[0], Without(s[1..], x));
    }
  }

  lemma HeadApart(s: seq<Address>)
    requires Distinct(s) && s != []
    ensures Distinct(s[1..]) && s[0] !in s[1..]
  {
  }

  lemma InFront(x: Address, s: seq<Address>)
    requires Distinct(s)
    ensures x !in s ==> Distinct([x] + s)
  {
    assert forall j :: 0 < j < |[x] + s| ==> ([x] + s)[j] == s[j - 1];
  }

  lemma {:induction false} WithoutAbsent(s: seq<Address>, x: Address)
    requires x !in s
    ensures Without(s, x) == s
  {
    if s != [] { WithoutAbsent(s[1..], x); }
  }

  // A flow in front of all those of a sorted tree.
  lemma SortedUnder(time: map<Address, nat>, f: Address, tree: seq<Address>)
    requires Sorted(time, tree) && f in time && forall j :: 0 <= j < |tree| ==> Before(time, f, tree[j])
    ensures Sorted(time, [f] + tree)
  {
    hide Before;
    var r := [f] + tree;
    assert forall j :: 0 < j < |r| ==> r[j] == tree[j - 1];
  }

  lemma {:induction false} WithoutSorted(time: map<Address, nat>, tree: seq<Address>, x: Address)
    requires Sorted(time, tree)
    ensures Sorted(time, Without(tree, x))
    ensures forall y :: y in Without(tree, x) <==> y in tree && y != x
  {
    if tree != [] {
      HeadBefore(time, tree);
      hide Before, Sorted;
      WithoutSorted(time, tree[1..], x);
      var r := Without(tree[1..], x);
      forall j | 0 <= j < |r| ensures Before(time, tree[0], r[j]) {
        assert r[j] in r;
      }
      SortedUnder(time, tree[0], r);
    }
  }

  lemma HeadBefore(time: map<Address, nat>, tree: seq<Address>)
    requires Sorted(time, tree) && tree != []
    ensures Sorted(time, tree[1..]) && tree[0] in time
    ensures forall y :: y in tree[1..] ==> y in time && Before(time, tree[0], y)
  {
    hide Before;
    forall y | y in tree[1..] ensures y in time && Before(time, tree[0], y) {
      var k :| 0 <= k < |tree| - 1 && tree[1..][k] == y;
      assert tree[k + 1] == y;
    }
  }

  // Charging the sending flow never moves two queued flows past each other, and no queued flow
  // is clamped: each loses exactly the same amount.  The sent flow ends at the integer
  // time - sub + amount, which is a 64-bit value although time - sub may be negative.
  lemma ChargeIsExact(s: State)
    requires Inv(s) && s.sending.Some?
    ensures var f, amount := s.sending.value, s.weight + s.sendingLen;
      var sub := if amount > MAX_TIME - s.time[f] then Subtrahend(s, f) else 0;
      var after := ChargedTimes(s.time, f, Subtrahend(s, f), amount);
      && Sorted(after, s.tree)
      && (forall g :: g in s.tree ==> after[g] == s.time[g] - sub)
      && 0 <= s.time[f] - sub + amount <= MAX_TIME && after[f] == s.time[f] - sub + amount
      && (forall g :: g in s.time && g != f ==> after[g] == Max(0, s.time[g] - sub))
  {
    if s.tree != [] { assert s.tree[0] in s.tree; }
  }

  // Queueing a flow on a tree it sorts into.
  lemma QueuedInv(s: State, f: Address, n: nat)
    requires WellFormed(s) && Sorted(s.time, s.tree) && f in s.time && f !in s.tree
    ensures var t := s.(len := s.len[f := n], tree := TreeInsert(s.time, s.tree, f));
      WellFormed(t) && Sorted(t.time, t.tree) && t.tree != []
  {
    TreeInsertSorted(s.time, s.tree, f);
    assert f in TreeInsert(s.time, s.tree, f);
  }

  lemma SubmitInv(s: State, f: Address, n: nat)
    requires Inv(s) && Enabled(s, Submit(f, n))
    ensures Inv(Step(s, Submit(f, n)))
    ensures WellFormed(s)
    ensures var s1 := Raised(s, f);
      var s2 := s1.(len := s1.len[f := n], tree := TreeInsert(s1.time, s1.tree, f));
      && WellFormed(s1) && f in s1.time && s1.sending == s.sending && s1.job == s.job && s1.freeing == s.freeing
      && (s.sending.None? && !s.job ==> s1.previous.None?)
      && WellFormed(s2) && s2.tree != [] && s2.tree[0] !in s2.tree[1..]
      && Step(s, Submit(f, n)) == if s2.sending.None? && !s2.job then Schedule(s2) else s2
  {
    var s1 := Raised(s, f);
    assert WellFormed(s1) && Sorted(s1.time, s1.tree);
    QueuedInv(s1, f, n);
    var s2 := s1.(len := s1.len[f := n], tree := TreeInsert(s1.time, s1.tree, f));
    ScheduleInv(s2);
    SubmitRest(s, s1, s2, f, n);
  }

  // What the state with the flow queued looks like before anything is scheduled.
  lemma SubmitFacts(s: State, s1: State, s2: State, f: Address, n: nat)
    requires Inv(s) && Enabled(s, Submit(f, n)) && s1 == Raised(s, f)
    requires s2 == s1.(len := s1.len[f := n], tree := TreeInsert(s1.time, s1.tree, f))
    requires WellFormed(s2)
    ensures s2.weight == s.weight && s2.mtu == s.mtu
    ensures s2.sending == s.sending && s2.sendingLen == s.sendingLen && s2.job == s.job
    ensures s2.previous.Some? ==> s2.previous == s.previous && s.previous != Some(f)
    ensures forall g :: g in s2.tree <==> g in s.tree || g == f
    ensures forall g :: g in s2.tree ==> s2.len[g] <= s.mtu
    ensures forall g :: g in s2.time ==> s2.time[g] <= MAX_TIME
    ensures s.sending.Some? ==> forall g :: g in s2.tree ==> s2.time[s.sending.value] <= s2.time[g]
    ensures Step(s, Submit(f, n)) == if s2.sending.None? && !s2.job then Schedule(s2) else s2
    ensures !s2.freeing
  {
    if s.sending.Some? {
      assert forall g :: g in s.tree ==> s2.time[g] == s.time[g];
      assert s2.time[s.sending.value] == s.time[s.sending.value] <= s2.time[f];
    }
  }

  lemma SubmitRest(s: State, s1: State, s2: State, f: Address, n: nat)
    requires Inv(s) && Enabled(s, Submit(f, n)) && s1 == Raised(s, f)
    requires s2 == s1.(len := s1.len[f := n], tree := TreeInsert(s1.time, s1.tree, f))
    requires WellFormed(s2) && Sorted(s2.time, s2.tree) && s2.tree != []
    requires Sorted(s2.time, s2.tree[1..]) && s2.tree[0] !in s2.tree[1..]
    requires forall g :: g in s2.tree[1..] ==> g in s2.tree && s2.time[s2.tree[0]] <= s2.time[g]
    ensures Inv(Step(s, Submit(f, n)))
  {
    hide Sorted, TreeInsert, Step, Raised, CurrentTime;
    SubmitFacts(s, s1, s2, f, n);
    assert s2.tree[0] in s2.tree;
  }

  // Taking the first flow off the tree leaves it smallest among what is queued.
  lemma ScheduleInv(s: State)
    requires WellFormed(s) && Sorted(s.time, s.tree) && s.tree != []
    ensures Sorted(s.time, s.tree[1..]) && s.tree[0] !in s.tree[1..]
    ensures forall g :: g in s.tree[1..] ==> g in s.tree && s.time[s.tree[0]] <= s.time[g]
  {
    assert s.tree[0] in s.tree;
    forall g | g in s.tree[1..] ensures g in s.tree && Before(s.time, s.tree[0], g) {
      var j :| 0 <= j < |s.tree[1..]| && s.tree[1..][j] == g;
      assert s.tree[j + 1] == g;
    }
  }

  lemma DoneInv(s: State)
    requires Inv(s) && Enabled(s, Done)
    ensures Inv(Step(s, Done))
  {
    hide Sorted, ChargedTimes, Subtrahend;
    DoneFacts(s);
    ChargeIsExact(s);
    DoneTimes(s);
  }

  lemma DoneTimes(s: State)
    requires Inv(s) && Enabled(s, Done)
    ensures Subtrahend(s, s.sending.value) == Subtrahend(s.(sending := None, previous := s.sending), s.sending.value)
    ensures forall g :: g in s.time ==> 0 <= Step(s, Done).time[g] <= MAX_TIME
  {
    ChargeIsExact(s);
  }

  // What the increment of the sent flow starts from and ends with.
  lemma DoneFacts(s: State)
    requires Inv(s) && Enabled(s, Done)
    ensures s.previous.None? && !s.job && s.sending.value !in s.tree && s.sending.value in s.time
    ensures WellFormed(s) && Sorted(s.time, s.tree) && s.weight + s.sendingLen <= MAX_TIME
    ensures forall g :: g in s.time ==> s.time[g] <= MAX_TIME
    ensures forall g :: g in s.tree ==> s.time[s.sending.value] <= s.time[g]
    ensures var f := s.sending.value;
      var s1 := s.(sending := None, previous := Some(f));
      var after := ChargedTimes(s.time, f, Subtrahend(s1, f), s.weight + s.sendingLen);
      && WellFormed(s1)
      && Step(s, Done) == s1.(time := after, job := true) && after.Keys == s.time.Keys
  {
  }

  lemma JobInv(s: State)
    requires Inv(s) && Enabled(s, Job)
    ensures Inv(Step(s, Job))
  {
    if s.tree != [] { ScheduleInv(s); }
  }

  lemma LeaveInv(s: State, f: Address)
    requires Inv(s) && Enabled(s, Leave(f))
    ensures Inv(Step(s, Leave(f))) && WellFormed(s)
    ensures forall y :: y in Without(s.tree, f) <==> y in s.tree && y != f
  {
    WithoutSorted(s.time, s.tree, f);
  }

  lemma JoinFacts(s: State, f: Address)
    requires Inv(s) && Enabled(s, Join(f))
    ensures WellFormed(s) && f !in s.tree
  {
  }

  lemma JoinInv(s: State, f: Address)
    requires Inv(s) && Enabled(s, Join(f))
    ensures Inv(Step(s, Join(f)))
  {
  }

  lemma JoinsList(s: seq<Address>, x: Address)
    requires Distinct(s) && x !in s
    ensures Distinct(s + [x])
    ensures forall y :: y in s + [x] <==> y in s || y == x
  {
    assert forall i :: 0 <= i < |s| ==> (s + [x])[i] in s;
  }

  // One step of the walk to the place of `f`, and the end of the walk.
  lemma TreeInsertWalks(time: map<Address, nat>, tree: seq<Address>, i: nat, f: Address)
    requires f in time && i < |tree| && (forall j :: 0 <= j < |tree| ==> tree[j] in time)
    requires Before(time, tree[i], f)
    ensures tree[..i] + TreeInsert(time, tree[i..], f) == tree[..i + 1] + TreeInsert(time, tree[i + 1..], f)
  {
    assert tree[i..][1..] == tree[i + 1..];
    assert tree[..i + 1] == tree[..i] + [tree[i]];
  }

  lemma TreeInsertStops(time: map<Address, nat>, tree: seq<Address>, i: nat, f: Address)
    requires f in time && i <= |tree| && (forall j :: 0 <= j < |tree| ==> tree[j] in time)
    requires i < |tree| ==> !Before(time, tree[i], f)
    ensures TreeInsert(time, tree[i..], f) == [f] + tree[i..]
  {
  }

  // Every event the callers may cause keeps the invariant, and no ASSERT of its handler fails.
  lemma StepInv(s: State, e: Event)
    requires Inv(s) && Enabled(s, e)
    ensures AssertsHold(s, e)
    ensures Inv(Step(s, e))
  {
    match e
    case Submit(f, n) => SubmitInv(s, f, n);
    case Done => DoneInv(s);
    case Job => JobInv(s);
    case Join(f) => JoinInv(s, f);
    case Leave(f) => LeaveInv(s, f);
    case PrepareFree =>
  }

  // ---------------------------------------------------------------------------------------
  // Runs
  // ---------------------------------------------------------------------------------------

  ghost predicate Legal(s: State, es: seq<Event>)
    decreases |es|
  {
    es == [] || (Enabled(s, es[0]) && WellFormed(s) && Legal(Step(s, es[0]), es[1..]))
  }

  ghost function Run(s: State, es: seq<Event>): State
    requires Legal(s, es)
    decreases |es|
  {
    if es == [] then s else Run(Step(s, es[0]), es[1..])
  }

  // PacketPassFairQueue_Init
  ghost function Initial(weight: nat, mtu: nat): State {
    State(weight, mtu, map[], map[], [], None, 0, None, false, false)
  }

  lemma {:induction false} RunInv(s: State, es: seq<Event>)
    requires Inv(s) && Legal(s, es)
    ensures Inv(Run(s, es))
    decreases |es|
  {
    if es != [] {
      StepInv(s, es[0]);
      RunInv(Step(s, es[0]), es[1..]);
    }
  }

  // Over every run from initialisation: the invariant holds, every ASSERT of the next handler
  // holds, and a queued flow always has either a send in progress or the schedule job coming.
  lemma EveryRun(weight: nat, mtu: nat, es: seq<Event>, e: Event)
    requires 0 < weight && weight + mtu <= MAX_TIME
    requires Legal(Initial(weight, mtu), es)
    ensures var s := Run(Initial(weight, mtu), es);
      && Inv(s)
      && (Enabled(s, e) ==> AssertsHold(s, e))
      && (s.tree != [] && !s.freeing ==> Enabled(s, Done) || Enabled(s, Job))
  {
    RunInv(Initial(weight, mtu), es);
    var s := Run(Initial(weight, mtu), es);
    if Enabled(s, e) { StepInv(s, e); }
  }

  // ---------------------------------------------------------------------------------------
  // Bounded waiting
  // ---------------------------------------------------------------------------------------

  // How much flow `g` is charged by event `e`.
  ghost function Fee(s: State, e: Event, g: Address): nat {
    if e.Done? && s.sending == Some(g) then s.weight + s.sendingLen else 0
  }

  // How much flow `g` is charged in the whole run.
  ghost function Charged(s: State, es: seq<Event>, g: Address): nat
    requires Legal(s, es)
    decreases |es|
  {
    if es == [] then 0 else Fee(s, es[0], g) + Charged(Step(s, es[0]), es[1..], g)
  }

  // Flow `f` is queued in every state of the run and `g` is a flow of the queue in each.
  ghost predicate Waits(s: State, es: seq<Event>, f: Address, g: Address)
    requires Legal(s, es)
    decreases |es|
  {
    && f in s.tree && g in s.time
    && (es == [] || Waits(Step(s, es[0]), es[1..], f, g))
  }

  // How far flow `g` lies behind flow `f`.
  ghost function Lag(s: State, f: Address, g: Address): int
    requires f in s.time && g in s.time
  {
    var tf: int, tg: int := s.time[f], s.time[g];
    tf - tg
  }

  // A charge brings `g` closer to the waiting flow by all of it, and happens only while `g` is
  // not yet past it.  Raising a time or rescaling all of them never lets `g` fall back.
  lemma LagNeverGrows(s: State, e: Event, f: Address, g: Address)
    requires Inv(s) && Enabled(s, e)
    requires f in s.tree && g in s.time
    requires f in Step(s, e).tree && g in Step(s, e).time
    requires f in Step(s, e).time
    ensures Lag(Step(s, e), f, g) <= Lag(s, f, g) - Fee(s, e, g)
    ensures Fee(s, e, g) > 0 ==> Lag(s, f, g) >= 0
  {
    if e.Done? { ChargeIsExact(s); }
  }

  lemma StepWeight(s: State, e: Event)
    requires WellFormed(s) && Enabled(s, e)
    ensures Step(s, e).weight == s.weight && Step(s, e).mtu == s.mtu
  {
  }

  // While `f` waits, any other flow is charged in total no more than its lag behind `f` plus
  // one maximal packet.
  lemma {:induction false} BoundedWaiting(s: State, es: seq<Event>, f: Address, g: Address)
    requires Inv(s) && Legal(s, es) && Waits(s, es, f, g)
    ensures Charged(s, es, g) <= if Lag(s, f, g) < 0 then 0 else Lag(s, f, g) + s.weight + s.mtu
    decreases |es|
  {
    if es != [] {
      var t := Step(s, es[0]);
      StepInv(s, es[0]);
      StepWeight(s, es[0]);
      LagNeverGrows(s, es[0], f, g);
      BoundedWaiting(t, es[1..], f, g);
    }
  }

  // ---------------------------------------------------------------------------------------
  // Nobody starves
  // ---------------------------------------------------------------------------------------

  ghost function Sends(es: seq<Event>): nat {
    if es == [] then 0 else (if es[0].Done? then 1 else 0) + Sends(es[1..])
  }

  ghost function Jobs(es: seq<Event>): nat {
    if es == [] then 0 else (if es[0].Job? then 1 else 0) + Jobs(es[1..])
  }

  ghost function Joins(es: seq<Event>): nat {
    if es == [] then 0 else (if es[0].Join? then 1 else 0) + Joins(es[1..])
  }

  // How far the current time, and how far flow `g`, once raised to it, lie behind flow `f`.
  ghost function Lead(s: State, f: Address): int
    requires WellFormed(s) && f in s.time
  {
    var tf: int, now: int := s.time[f], CurrentTime(s);
    tf - now
  }

  ghost function Gap(s: State, f: Address, g: Address): int
    requires WellFormed(s) && f in s.time && g in s.time
  {
    var tf: int := s.time[f];
    tf - Max(s.time[g], CurrentTime(s))
  }

  // What flow `g`, and what a flow yet to come, may be charged before waiting flow `f` is sent.
  ghost function Share(s: State, f: Address, g: Address): nat
    requires WellFormed(s) && f in s.time && g in s.time
  {
    if g == f || Gap(s, f, g) < 0 then 0 else Gap(s, f, g) + s.weight + s.mtu
  }

  ghost function NewShare(s: State, f: Address): nat
    requires WellFormed(s) && f in s.time
  {
    Max(0, Lead(s, f)) + s.weight + s.mtu
  }

  ghost function Shares(s: State, f: Address, fs: seq<Address>): nat
    requires WellFormed(s) && f in s.time && forall g :: g in fs ==> g in s.time
  {
    if fs == [] then 0 else Share(s, f, fs[0]) + Shares(s, f, fs[1..])
  }

  // The current time only moves towards a waiting flow, and every other flow with it; a charge
  // moves the sent flow by all of it.
  lemma GapShrinks(s: State, e: Event, f: Address, g: Address)
    requires Inv(s) && Enabled(s, e) && Inv(Step(s, e))
    requires f in s.tree && g in s.time && f in Step(s, e).tree && g in Step(s, e).time
    ensures Gap(Step(s, e), f, g) <= Gap(s, f, g) - Fee(s, e, g)
    ensures Fee(s, e, g) > 0 ==> Gap(s, f, g) >= 0 && g != f
  {
    LeadShrinks(s, e, f);
    LagNeverGrows(s, e, f, g);
    if e.Done? { SentIsNow(s, g); }
  }

  // While a flow is sent its time is the current time.
  lemma SentIsNow(s: State, g: Address)
    requires Inv(s) && s.sending.Some? && g in s.time
    ensures s.sending == Some(g) ==> s.time[g] == CurrentTime(s) && g !in s.tree
  {
  }

  lemma LeadShrinks(s: State, e: Event, f: Address)
    requires Inv(s) && Enabled(s, e) && Inv(Step(s, e))
    requires f in s.tree && f in Step(s, e).tree
    ensures WellFormed(s) && WellFormed(Step(s, e)) && f in s.time && f in Step(s, e).time
    ensures Lead(Step(s, e), f) <= Lead(s, f)
  {
    hide Inv, Step, CurrentTime;
    InvWellFormed(s);
    InvWellFormed(Step(s, e));
    match e
    case Submit(x, n) => LeadAfterSubmit(s, x, n, f);
    case Done => LeadAfterDone(s, f);
    case Job => LeadAfterJob(s, f);
    case Join(x) => LeadAfterJoin(s, x, f);
    case Leave(x) => LeadAfterLeave(s, x, f);
    case PrepareFree => LeadAfterPrepare(s, f);
  }

  // The current time is that of the sending flow, or else the least of what may be sent next.
  lemma NowIsLeast(s: State, g: Address)
    requires Inv(s) && g in s.tree
    ensures WellFormed(s) && s.tree != [] && s.tree[0] in s.tree
    ensures CurrentTime(s) <= s.time[g]
    ensures s.sending.Some? ==> CurrentTime(s) == s.time[s.sending.value]
    ensures s.previous.Some? ==> CurrentTime(s) <= s.time[s.previous.value]
  {
    assert s.tree[0] in s.tree;
    FirstIsLeast(s, g);
  }

  lemma NowAtLeast(s: State, v: nat)
    requires WellFormed(s) && s.tree != [] && s.tree[0] in s.tree && s.time[s.tree[0]] >= v
    requires s.sending.Some? ==> s.time[s.sending.value] >= v
    requires s.previous.Some? ==> s.time[s.previous.value] >= v
    ensures CurrentTime(s) >= v
  {
  }

  lemma FirstIsLeast(s: State, f: Address)
    requires Inv(s) && f in s.tree
    ensures s.tree != [] && s.tree[0] in s.tree && s.time[s.tree[0]] <= s.time[f]
  {
    assert s.tree[0] in s.tree;
    var i :| 0 <= i < |s.tree| && s.tree[i] == f;
    if i > 0 { assert Before(s.time, s.tree[0], s.tree[i]); }
  }

  lemma LeadAfterSubmit(s: State, x: Address, n: nat, f: Address)
    requires Inv(s) && Enabled(s, Submit(x, n)) && Inv(Step(s, Submit(x, n)))
    requires f in s.tree && f in Step(s, Submit(x, n)).tree
    ensures WellFormed(s) && WellFormed(Step(s, Submit(x, n))) && f in s.time && f in Step(s, Submit(x, n)).time
    ensures Lead(Step(s, Submit(x, n)), f) <= Lead(s, f)
  {
    hide CurrentTime, TreeInsert, Raised, Step, Sorted;
    NowIsLeast(s, f);
    SubmitInv(s, x, n);
    var s1 := Raised(s, x);
    var s2 := s1.(len := s1.len[x := n], tree := TreeInsert(s1.time, s1.tree, x));
    SubmitFacts(s, s1, s2, x, n);
    RaisedTimes(s, x);
    assert s2.tree[0] in s2.tree;
    if s2.tree[0] != x { NowIsLeast(s, s2.tree[0]); }
    NowAtLeast(s2, CurrentTime(s));
  }

  lemma RaisedTimes(s: State, x: Address)
    requires Inv(s) && x in s.time && s.tree != [] && s.tree[0] in s.tree
    ensures var t := Raised(s, x);
      && x in t.time && t.time.Keys == s.time.Keys && t.time[x] >= CurrentTime(s)
      && (forall g :: g in s.time && g != x ==> t.time[g] == s.time[g])
  {
  }

  lemma LeadAfterDone(s: State, f: Address)
    requires Inv(s) && Enabled(s, Done) && f in s.tree
    ensures WellFormed(s) && WellFormed(Step(s, Done)) && f in s.time && f in Step(s, Done).time
    ensures Lead(Step(s, Done), f) <= Lead(s, f)
  {
    NowIsLeast(s, f);
    FirstIsLeast(s, f);
    ChargeIsExact(s);
    hide Inv, Sorted;
  }

  lemma LeadAfterJob(s: State, f: Address)
    requires Inv(s) && Enabled(s, Job) && f in s.tree && f in Step(s, Job).tree
    ensures WellFormed(s) && WellFormed(Step(s, Job)) && f in s.time && f in Step(s, Job).time
    ensures Lead(Step(s, Job), f) <= Lead(s, f)
  {
    NowIsLeast(s, f);
    NowIsLeast(s, s.tree[0]);
    hide Inv, Sorted;
  }

  lemma LeadAfterJoin(s: State, x: Address, f: Address)
    requires Inv(s) && Enabled(s, Join(x)) && f in s.tree
    ensures WellFormed(s) && WellFormed(Step(s, Join(x))) && f in s.time && f in Step(s, Join(x)).time
    ensures Lead(Step(s, Join(x)), f) <= Lead(s, f)
  {
    NowIsLeast(s, f);
    NowIsLeast(s, s.tree[0]);
    hide Inv, Sorted;
  }

  lemma LeadAfterLeave(s: State, x: Address, f: Address)
    requires Inv(s) && Enabled(s, Leave(x)) && f in s.tree && f in Step(s, Leave(x)).tree && Inv(Step(s, Leave(x)))
    ensures WellFormed(s) && WellFormed(Step(s, Leave(x))) && f in s.time && f in Step(s, Leave(x)).time
    ensures Lead(Step(s, Leave(x)), f) <= Lead(s, f)
  {
    NowIsLeast(s, f);
    LeaveInv(s, x);
    var t := Step(s, Leave(x));
    FirstIsLeast(t, f);
    NowIsLeast(s, t.tree[0]);
    hide Inv, Sorted, CurrentTime, Without;
    NowAtLeast(t, CurrentTime(s));
  }

  lemma LeadAfterPrepare(s: State, f: Address)
    requires WellFormed(s) && f in s.time
    ensures WellFormed(Step(s, PrepareFree)) && f in Step(s, PrepareFree).time
    ensures Lead(Step(s, PrepareFree), f) == Lead(s, f)
  {
  }

  // What an event leaves of the shares of the flows there are.
  lemma {:induction false} SharesShrink(s: State, e: Event, f: Address, fs: seq<Address>)
    requires Inv(s) && Enabled(s, e) && Inv(Step(s, e)) && f in s.tree && f in Step(s, e).tree && Distinct(fs)
    requires forall g :: g in fs ==> g in s.time && g in Step(s, e).time
    ensures Shares(Step(s, e), f, fs) + (if e.Done? && s.sending.value in fs then s.weight + s.sendingLen else 0)
      <= Shares(s, f, fs)
  {
    hide Inv, Step, WellFormed;
    if fs != [] {
      assert fs[0] !in fs[1..];
      SharesShrink(s, e, f, fs[1..]);
      ShareShrinks(s, e, f, fs[0]);
    }
  }

  lemma ShareShrinks(s: State, e: Event, f: Address, g: Address)
    requires Inv(s) && Enabled(s, e) && Inv(Step(s, e)) && f in s.tree && f in Step(s, e).tree
    requires g in s.time && g in Step(s, e).time
    ensures WellFormed(s) && WellFormed(Step(s, e)) && f in s.time && f in Step(s, e).time
    ensures Share(Step(s, e), f, g) + Fee(s, e, g) <= Share(s, f, g)
    ensures e.Done? && s.sending == Some(g) ==> Fee(s, e, g) == s.weight + s.sendingLen
  {
    hide Step, CurrentTime;
    GapShrinks(s, e, f, g);
    StepWeight(s, e);
  }

  // The flows after an event, in a list, and what may be charged to them.
  ghost function Flows(e: Event, fs: seq<Address>): seq<Address> {
    match e
    case Join(f) => fs + [f]
    case Leave(f) => Without(fs, f)
    case _ => fs
  }

  ghost predicate Lists(fs: seq<Address>, s: State) {
    Distinct(fs) && forall g :: g in fs <==> g in s.time
  }

  lemma FlowsAre(s: State, e: Event, fs: seq<Address>)
    requires WellFormed(s) && Enabled(s, e) && Lists(fs, s)
    ensures Lists(Flows(e, fs), Step(s, e))
  {
    match e
    case Join(f) => JoinsList(fs, f);
    case Leave(f) => WithoutIs(fs, f);
    case _ =>
  }

  // An event takes at least what it charges off the shares, and only a newcomer adds one.
  lemma SharesStep(s: State, e: Event, f: Address, fs: seq<Address>)
    requires Inv(s) && Enabled(s, e) && Inv(Step(s, e)) && f in s.tree && f in Step(s, e).tree && Lists(fs, s)
    ensures Lists(Flows(e, fs), Step(s, e)) && WellFormed(s) && WellFormed(Step(s, e))
    ensures Shares(Step(s, e), f, Flows(e, fs)) + (if e.Done? then s.weight else 0)
      <= Shares(s, f, fs) + if e.Join? then NewShare(s, f) else 0
  {
    hide Distinct, Inv, Step;
    InvWellFormed(s);
    InvWellFormed(Step(s, e));
    FlowsAre(s, e, fs);
    var t := Step(s, e);
    match e
    case Join(x) =>
      JoinKeeps(s, x);
      SharesShrink(s, e, f, fs);
      SharesSnoc(t, f, fs, x);
      NewcomerShare(s, x, f);
    case Leave(x) =>
      WithoutIs(fs, x);
      SharesShrink(s, e, f, Without(fs, x));
      SharesWithout(s, f, fs, x);
    case _ =>
      SharesShrink(s, e, f, fs);
  }

  lemma InvWellFormed(s: State)
    requires Inv(s)
    ensures WellFormed(s) && (forall f :: f in s.tree ==> f in s.time)
  {
  }

  lemma JoinKeeps(s: State, x: Address)
    requires WellFormed(s) && Enabled(s, Join(x))
    ensures forall g :: g in s.time ==> g in Step(s, Join(x)).time
    ensures x in Step(s, Join(x)).time
  {
  }

  lemma {:induction false} SharesSnoc(s: State, f: Address, fs: seq<Address>, x: Address)
    requires WellFormed(s) && f in s.time && x in s.time && forall g :: g in fs ==> g in s.time
    ensures forall g :: g in fs + [x] ==> g in s.time
    ensures Shares(s, f, fs + [x]) == Shares(s, f, fs) + Share(s, f, x)
  {
    hide WellFormed, Share;
    if fs != [] {
      SharesSnoc(s, f, fs[1..], x);
      assert (fs + [x])[1..] == fs[1..] + [x];
    } else {
      assert fs + [x] == [x] && [x][1..] == [];
    }
  }

  lemma {:induction false} SharesWithout(s: State, f: Address, fs: seq<Address>, x: Address)
    requires WellFormed(s) && f in s.time && forall g :: g in fs ==> g in s.time
    ensures forall g :: g in Without(fs, x) ==> g in s.time
    ensures Shares(s, f, Without(fs, x)) <= Shares(s, f, fs)
  {
    hide WellFormed, Share;
    if fs != [] { SharesWithout(s, f, fs[1..], x); }
  }

  lemma NewcomerShare(s: State, x: Address, f: Address)
    requires Inv(s) && Enabled(s, Join(x)) && f in s.tree && Inv(Step(s, Join(x)))
    ensures WellFormed(s) && WellFormed(Step(s, Join(x))) && f in Step(s, Join(x)).time && x in Step(s, Join(x)).time
    ensures Share(Step(s, Join(x)), f, x) <= NewShare(s, f)
  {
    LeadShrinks(s, Join(x), f);
  }

  // Every completed send is charged at least the packet weight, so the sends use up the shares.
  lemma {:induction false} SendsUseShares(s: State, es: seq<Event>, f: Address, fs: seq<Address>)
    requires Inv(s) && Legal(s, es) && Waits(s, es, f, f) && Lists(fs, s)
    ensures WellFormed(s)
    ensures Sends(es) * s.weight <= Shares(s, f, fs) + Joins(es) * NewShare(s, f)
    decreases |es|
  {
    hide Inv, Step, Lists, Shares, NewShare, WellFormed;
    InvWellFormed(s);
    ListsIn(fs, s);
    if es != [] {
      var e, t := es[0], Step(s, es[0]);
      StepInv(s, e);
      InvWellFormed(t);
      SharesStep(s, e, f, fs);
      ListsIn(Flows(e, fs), t);
      SendsUseShares(t, es[1..], f, Flows(e, fs));
      StepWeight(s, e);
      NewShareShrinks(s, e, f);
      Budget(Sends(es[1..]), Joins(es[1..]), s.weight, NewShare(s, f), NewShare(t, f),
        Shares(t, f, Flows(e, fs)), Shares(s, f, fs), e.Done?, e.Join?);
    }
  }

  lemma ListsIn(fs: seq<Address>, s: State)
    requires Lists(fs, s)
    ensures forall g :: g in fs ==> g in s.time
  {
  }

  lemma NewShareShrinks(s: State, e: Event, f: Address)
    requires Inv(s) && Enabled(s, e) && Inv(Step(s, e)) && f in s.tree && f in Step(s, e).tree
    ensures WellFormed(s) && WellFormed(Step(s, e))
    ensures NewShare(Step(s, e), f) <= NewShare(s, f)
  {
    hide Step, CurrentTime;
    LeadShrinks(s, e, f);
    StepWeight(s, e);
  }

  // One event's part in the account.
  lemma Budget(sends: nat, joins: nat, w: nat, share: nat, later: nat, left: nat, had: nat, done: bool, join: bool)
    requires sends * w <= left + joins * later && later <= share
    requires left + (if done then w else 0) <= had + if join then share else 0
    ensures ((if done then 1 else 0) + sends) * w <= had + ((if join then 1 else 0) + joins) * share
  {
    assert joins * later <= joins * share;
    assert ((if done then 1 else 0) + sends) * w == (if done then w else 0) + sends * w;
    assert ((if join then 1 else 0) + joins) * share == (if join then share else 0) + joins * share;
  }

  lemma {:induction false} JobsFollowSends(s: State, es: seq<Event>)
    requires Inv(s) && Legal(s, es)
    ensures Jobs(es) <= Sends(es) + if s.job then 1 else 0
    decreases |es|
  {
    if es != [] {
      StepInv(s, es[0]);
      JobSetBy(s, es[0]);
      JobsFollowSends(Step(s, es[0]), es[1..]);
    }
  }

  lemma JobSetBy(s: State, e: Event)
    requires WellFormed(s) && Enabled(s, e)
    ensures Step(s, e).job ==> e.Done? || (s.job && !e.Job?)
    ensures e.Job? ==> s.job
  {
  }

  // Nobody starves: as long as `f` stays queued, whatever flows join, leave and submit, the number of
  // sends that can still happen is bounded by the shares of the flows `fs` there are and one share
  // for each that joins; schedule jobs are as many and one more, and as long as the queue is not
  // being freed one of the two can always happen.
  lemma NoStarvation(s: State, es: seq<Event>, f: Address, fs: seq<Address>)
    requires Inv(s) && Legal(s, es) && Waits(s, es, f, f) && Lists(fs, s)
    ensures WellFormed(s)
    ensures Sends(es) * s.weight <= Shares(s, f, fs) + Joins(es) * NewShare(s, f)
    ensures Jobs(es) <= Sends(es) + 1
    ensures !Run(s, es).freeing ==> Enabled(Run(s, es), Done) || Enabled(Run(s, es), Job)
  {
    SendsUseShares(s, es, f, fs);
    JobsFollowSends(s, es);
    RunInv(s, es);
    RunKeepsWaiting(s, es, f);
  }

  lemma {:induction false} RunKeepsWaiting(s: State, es: seq<Event>, f: Address)
    requires Legal(s, es) && Waits(s, es, f, f)
    ensures f in Run(s, es).tree
    decreases |es|
  {
    if es != [] { RunKeepsWaiting(Step(s, es[0]), es[1..], f); }
  }

  // ---------------------------------------------------------------------------------------
  // The code
  // ---------------------------------------------------------------------------------------

  lemma InitialInv(weight: nat, mtu: nat)
    requires 0 < weight && weight + mtu <= MAX_TIME
    ensures Inv(Initial(weight, mtu))
  {
  }

  // What a uint64_t keeps of an integer.
  function Wrap64(x: int): nat { x % MODULUS }

  lemma WrapSmall(x: int)
    requires 0 <= x <= MAX_TIME
    ensures Wrap64(x) == x
  {
  }

  lemma UnderflowThenOverflow(t: nat, sub: nat, amount: nat)
    requires t <= MAX_TIME && sub <= MAX_TIME && 0 <= t - sub + amount <= MAX_TIME
    ensures Wrap64(Wrap64(t - sub) + amount) == t - sub + amount
  {
  }

  lemma FirstInOrder(time: map<Address, nat>, tree: seq<Address>)
    requires Sorted(time, tree) && tree != []
    ensures forall f :: f in tree ==> f in time && time[tree[0]] <= time[f]
  {
    forall f | f in tree ensures time[tree[0]] <= time[f] {
      var i :| 0 <= i < |tree| && tree[i] == f;
      if i > 0 { assert Before(time, tree[0], tree[i]); }
    }
  }

  lemma ChargedTimesAre(m: map<Address, nat>, r: map<Address, nat>, flow: Address, sub: nat, amount: nat)
    requires flow in m && r.Keys == m.Keys
    requires forall f :: f in m ==> r[f] == ChargedTime(m, flow, sub, amount, f)
    ensures r == ChargedTimes(m, flow, sub, amount)
  {
    hide ChargedTime;
  }

  // PacketPassFairQueue.  The fields of the flow records (time, queued.data_len, is_queued) are
  // tables indexed by the flow's address.
  class Queue {
    var packetWeight: nat
    var mtu: nat
    var sendingFlow: Option<Address>
    var sendingLen: nat
    var previousFlow: Option<Address>
    var queuedTree: seq<Address>
    var flowsList: seq<Address>
    var freeing: bool
    var scheduleJob: bool
    var time: map<Address, nat>
    var dataLen: map<Address, nat>
    var isQueued: map<Address, bool>

    ghost function Now(): State
      reads this
    {
      State(packetWeight, mtu, time, dataLen, queuedTree, sendingFlow, sendingLen, previousFlow,
            scheduleJob, freeing)
    }

    ghost predicate FlagsMatch()
      reads this
    {
      isQueued.Keys == time.Keys && forall f :: f in isQueued ==> (isQueued[f] <==> f in queuedTree)
    }

    ghost predicate ListMatches()
      reads this
    {
      Distinct(flowsList) && forall f :: f in flowsList <==> f in time
    }

    ghost predicate Valid()
      reads this
    {
      Inv(Now()) && FlagsMatch() && ListMatches()
    }

    // PacketPassFairQueue_Init
    method Init(packetWeight: nat, mtu: nat) returns (ok: bool)
      requires 0 < packetWeight
      modifies this
      ensures ok <==> packetWeight + mtu <= MAX_TIME
      ensures ok ==> Valid() && Now() == Initial(packetWeight, mtu)
    {
      hide Inv;
      if packetWeight + mtu <= MAX_TIME { InitialInv(packetWeight, mtu); }
      this.packetWeight, this.mtu := packetWeight, mtu;
      if !(mtu <= MAX_TIME && packetWeight <= MAX_TIME - mtu) {
        return false;
      }
      sendingFlow, previousFlow := None, None;
      sendingLen := 0;
      queuedTree, flowsList := [], [];
      time, dataLen, isQueued := map[], map[], map[];
      freeing, scheduleJob := false, false;
      ok := true;
    }

    method GetCurrentTime() returns (now: nat)
      requires WellFormed(Now()) && FlagsMatch()
      ensures now == CurrentTime(Now())
    {
      if sendingFlow.Some? {
        return time[sendingFlow.value];
      }
      now := 0;
      var have := false;
      if queuedTree != [] {
        var first := queuedTree[0];
        assert first in queuedTree;
        assert isQueued[first];
        now, have := time[first], true;
      }
      if previousFlow.Some? {
        if !have || time[previousFlow.value] < now {
          now, have := time[previousFlow.value], true;
        }
      }
      now := if have then now else 0;
    }

    // The loop of increment_sent_flow.  Off the finished flow the subtraction may wrap.
    method SubtractFromAll(flow: Address, subtract: nat)
      requires flow in time && FlagsMatch() && ListMatches()
      requires forall f :: f in time ==> time[f] <= MAX_TIME
      requires forall f :: f in queuedTree ==> f in time && subtract <= time[f]
      modifies this`time
      ensures time.Keys == old(time.Keys)
      ensures forall f :: f in time ==>
        time[f] == if f == flow then Wrap64(old(time)[f] - subtract) else Max(0, old(time)[f] - subtract)
    {
      hide Wrap64;
      var i := 0;
      while i < |flowsList|
        invariant 0 <= i <= |flowsList|
        invariant time.Keys == old(time.Keys)
        invariant forall j :: 0 <= j < i ==>
          time[flowsList[j]] == if flowsList[j] == flow then Wrap64(old(time)[flow] - subtract)
                                else Max(0, old(time)[flowsList[j]] - subtract)
        invariant forall j :: i <= j < |flowsList| ==> time[flowsList[j]] == old(time)[flowsList[j]]
      {
        assert flowsList[i] in flowsList;
        SubtractFrom(flowsList[i], flow, subtract);
        i := i + 1;
      }
    }

    // The body of that loop.
    method SubtractFrom(someflow: Address, flow: Address, subtract: nat)
      requires someflow in time && time[someflow] <= MAX_TIME && someflow in isQueued
      requires isQueued[someflow] ==> subtract <= time[someflow]
      modifies this`time
      ensures time == old(time)[someflow := if someflow == flow then Wrap64(old(time)[flow] - subtract)
                                            else Max(0, old(time)[someflow] - subtract)]
    {
      if subtract > time[someflow] && someflow != flow {
        assert !isQueued[someflow];
        time := time[someflow := 0];
      } else {
        if someflow != flow { WrapSmall(time[someflow] - subtract); }
        time := time[someflow := Wrap64(time[someflow] - subtract)];
      }
    }

    // The first part of increment_sent_flow, when the charge would overflow.
    method Rescale(flow: Address)
      requires flow in time && WellFormed(Now()) && FlagsMatch() && ListMatches()
      requires Sorted(time, queuedTree)
      requires forall f :: f in time ==> time[f] <= MAX_TIME
      modifies this`time
      ensures time.Keys == old(time.Keys)
      ensures var sub := Subtrahend(old(Now()), flow);
        && sub <= MAX_TIME
        && forall f :: f in time ==>
          time[f] == if f == flow then Wrap64(old(time)[f] - sub) else Max(0, old(time)[f] - sub)
    {
      var subtract;
      if queuedTree == [] {
        subtract := time[flow];
      } else {
        var first := queuedTree[0];
        assert first in queuedTree;
        assert isQueued[first];
        subtract := time[first];
        FirstInOrder(time, queuedTree);
      }
      hide Wrap64, Sorted;
      SubtractFromAll(flow, subtract);
    }

    method IncrementSentFlow(flow: Address, amount: nat)
      requires flow in time && flow !in queuedTree && WellFormed(Now()) && FlagsMatch() && ListMatches()
      requires Sorted(time, queuedTree)
      requires forall f :: f in time ==> time[f] <= MAX_TIME
      requires forall f :: f in queuedTree ==> time[flow] <= time[f]
      requires amount <= MAX_TIME && sendingFlow.None?
      modifies this`time
      ensures time == ChargedTimes(old(time), flow, Subtrahend(old(Now()), flow), amount)
    {
      hide Wrap64, ListMatches, Sorted;
      assert amount <= MAX_TIME && !isQueued[flow] && sendingFlow.None?;
      ghost var sub := Subtrahend(Now(), flow);
      if amount > MAX_TIME - time[flow] {
        assert time[flow] <= sub by { if queuedTree != [] { assert queuedTree[0] in queuedTree; } }
        Rescale(flow);
        UnderflowThenOverflow(old(time)[flow], sub, amount);
      } else {
        WrapSmall(time[flow] + amount);
      }
      time := time[flow := Wrap64(time[flow] + amount)];
      ChargedTimesAre(old(time), time, flow, sub, amount);
    }

    // PacketPassFairQueue__Tree_Insert: walk to the place where the flow sorts.
    method InsertIntoTree(flow: Address)
      requires flow in time && forall f :: f in queuedTree ==> f in time
      modifies this`queuedTree
      ensures queuedTree == TreeInsert(time, old(queuedTree), flow)
    {
      hide TreeInsert;
      var i := 0;
      assert queuedTree[0..] == queuedTree;
      while i < |queuedTree| && (time[queuedTree[i]] < time[flow]
            || (time[queuedTree[i]] == time[flow] && queuedTree[i] < flow))
        invariant 0 <= i <= |queuedTree| && queuedTree == old(queuedTree)
        invariant TreeInsert(time, queuedTree, flow) == queuedTree[..i] + TreeInsert(time, queuedTree[i..], flow)
      {
        TreeInsertWalks(time, queuedTree, i, flow);
        i := i + 1;
      }
      TreeInsertStops(time, queuedTree, i, flow);
      queuedTree := queuedTree[..i] + ([flow] + queuedTree[i..]);
    }

    // schedule
    method ScheduleFirst()
      requires WellFormed(Now()) && FlagsMatch() && queuedTree != [] && queuedTree[0] !in queuedTree[1..]
      requires sendingFlow.None? && previousFlow.None? && !freeing
      modifies this`queuedTree, this`isQueued, this`sendingFlow, this`sendingLen
      ensures FlagsMatch() && Now() == Schedule(old(Now())) && (old(ListMatches()) ==> ListMatches())
    {
      var qflow := queuedTree[0];
      assert qflow in queuedTree;
      assert isQueued[qflow];
      assert queuedTree == [qflow] + queuedTree[1..];
      queuedTree := queuedTree[1..];
      isQueued := isQueued[qflow := false];
      sendingFlow := Some(qflow);
      sendingLen := dataLen[qflow];
    }

    // The middle part of input_handler_send.
    method Enqueue(flow: Address, len: nat)
      requires WellFormed(Now()) && FlagsMatch() && flow in time
      modifies this`dataLen, this`queuedTree, this`isQueued
      ensures Now() == var s := old(Now()); s.(len := s.len[flow := len], tree := TreeInsert(s.time, s.tree, flow))
      ensures FlagsMatch() && (old(ListMatches()) ==> ListMatches())
    {
      dataLen := dataLen[flow := len];
      InsertIntoTree(flow);
      isQueued := isQueued[flow := true];
    }

    // The first part of input_handler_send: drop the flow's claim to its old turn, or bring it
    // up to the current time.
    method RaiseTime(flow: Address)
      requires WellFormed(Now()) && FlagsMatch() && ListMatches() && flow in time
      modifies this`previousFlow, this`time
      ensures Now() == Raised(old(Now()), flow)
      ensures FlagsMatch() && ListMatches()
    {
      hide CurrentTime;
      if previousFlow == Some(flow) {
        previousFlow := None;
      } else {
        var now := GetCurrentTime();
        time := time[flow := Max(time[flow], now)];
      }
    }

    // input_handler_send
    method InputHandlerSend(flow: Address, len: nat)
      requires Valid() && Enabled(Now(), Submit(flow, len))
      modifies this
      ensures Now() == Step(old(Now()), Submit(flow, len))
      ensures Valid()
    {
      hide Inv, Sorted, Distinct, Step, Raised, TreeInsert, WellFormed, Schedule, CurrentTime, ListMatches;
      assert sendingFlow != Some(flow) && !isQueued[flow] && !freeing;
      SubmitInv(Now(), flow, len);
      RaiseTime(flow);
      Enqueue(flow, len);
      if sendingFlow.None? && !scheduleJob {
        ScheduleFirst();
      }
    }

    // schedule_job_handler; the job list clears the job before running it.
    method ScheduleJobHandler()
      requires Valid() && Enabled(Now(), Job)
      modifies this
      ensures Now() == Step(old(Now()), Job)
      ensures Valid()
    {
      JobInv(Now());
      assert WellFormed(Now());
      if queuedTree != [] { ScheduleInv(Now()); }
      hide Inv, Sorted, Distinct, WellFormed;
      scheduleJob := false;
      assert sendingFlow.None? && !freeing;
      previousFlow := None;
      if queuedTree != [] {
        ScheduleFirst();
      }
    }

    // output_handler_done
    method OutputHandlerDone()
      requires Valid() && Enabled(Now(), Done)
      modifies this
      ensures Now() == Step(old(Now()), Done)
      ensures Valid()
    {
      hide Inv, Sorted, Distinct, Step, WellFormed, Subtrahend, ChargedTimes;
      DoneInv(Now());
      DoneFacts(Now());
      var flow := sendingFlow.value;
      assert previousFlow.None? && !scheduleJob && !freeing && !isQueued[flow];
      sendingFlow := None;
      previousFlow := Some(flow);
      IncrementSentFlow(flow, packetWeight + sendingLen);
      scheduleJob := true;
    }

    // PacketPassFairQueueFlow_Init
    method InitFlow(flow: Address)
      requires Valid() && Enabled(Now(), Join(flow))
      modifies this
      ensures Now() == Step(old(Now()), Join(flow))
      ensures Valid()
    {
      hide Inv, Sorted, Distinct;
      JoinInv(Now(), flow);
      JoinFacts(Now(), flow);
      JoinsList(flowsList, flow);
      hide WellFormed;
      time := time[flow := 0];
      dataLen := dataLen[flow := 0];
      flowsList := flowsList + [flow];
      isQueued := isQueued[flow := false];
    }

    // The first part of PacketPassFairQueueFlow_Free: take the flow out of every role it has.
    method Detach(flow: Address)
      requires FlagsMatch() && flow in time
      modifies this`sendingFlow, this`previousFlow, this`queuedTree
      ensures sendingFlow == if old(sendingFlow) == Some(flow) then None else old(sendingFlow)
      ensures previousFlow == if old(previousFlow) == Some(flow) then None else old(previousFlow)
      ensures queuedTree == Without(old(queuedTree), flow)
    {
      if sendingFlow == Some(flow) { sendingFlow := None; }
      if previousFlow == Some(flow) { previousFlow := None; }
      if isQueued[flow] {
        queuedTree := Without(queuedTree, flow);
      } else {
        WithoutAbsent(queuedTree, flow);
      }
    }

    // The rest of it: drop the flow from the list and from the tables.
    method Forget(flow: Address)
      requires ListMatches() && isQueued.Keys == time.Keys && flow !in queuedTree
      requires forall f :: f in isQueued && f != flow ==> (isQueued[f] <==> f in queuedTree)
      modifies this`flowsList, this`time, this`dataLen, this`isQueued
      ensures time == old(time) - {flow} && dataLen == old(dataLen) - {flow}
      ensures FlagsMatch() && ListMatches()
    {
      WithoutIs(flowsList, flow);
      hide Distinct, Without;
      flowsList := Without(flowsList, flow);
      time, dataLen, isQueued := time - {flow}, dataLen - {flow}, isQueued - {flow};
    }

    // PacketPassFairQueueFlow_Free
    method FreeFlow(flow: Address)
      requires Valid() && Enabled(Now(), Leave(flow))
      modifies this
      ensures Now() == Step(old(Now()), Leave(flow))
      ensures Valid()
    {
      hide Inv, Sorted, Distinct, WellFormed, Without;
      assert freeing || sendingFlow != Some(flow);
      LeaveInv(Now(), flow);
      Detach(flow);
      Forget(flow);
    }

    // PacketPassFairQueue_PrepareFree
    method PrepareToFree()
      requires Valid()
      modifies this
      ensures Now() == Step(old(Now()), PrepareFree)
      ensures Valid()
    {
      freeing := true;
    }
  }
}
