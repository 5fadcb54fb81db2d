// The packet passing interface and the job list under it (badvpn/flow/PacketPassInterface.h and
// .c, badvpn/base/BPending.c).
//
// A sender sends one packet at a time and is called back when it is done; the provider is called
// with the packet and later says it is done; the sender may ask for cancellation in between.
// None of these calls goes straight to the other side: each sets a job, and the event loop runs
// the job that was set last.

module PassInterface {
  import opened Common

  // The jobs of one interface, and those of everything else that shares the job list.
  datatype Job = Operation | Cancel | DoneJob | Foreign(id: nat)

  // ---------------------------------------------------------------------------------------
  // The job list
  // ---------------------------------------------------------------------------------------

  function Removed(jobs: seq<Job>, j: Job): (r: seq<Job>) {
    if jobs == [] then [] else if jobs[0] == j then jobs[1..] else [jobs[0]] + Removed(jobs[1..], j)
  }

  ghost predicate Once(jobs: seq<Job>) {
    forall i, k :: 0 <= i < k < |jobs| ==> jobs[i] != jobs[k]
  }

  lemma {:induction false} RemovedIs(jobs: seq<Job>, j: Job)
    requires Once(jobs)
    ensures Once(Removed(jobs, j))
    ensures forall x :: x in Removed(jobs, j) <==> x in jobs && x != j
  {
    if jobs != [] {
      RemovedIs(jobs[1..], j);
      var r := Removed(jobs[1..], j);
      assert jobs[0] !in jobs[1..];
      if jobs[0] != j {
        assert Removed(jobs, j) == [jobs[0]] + r;
        hide Removed;
        OnceCons(jobs[0], r);
      }
    }
  }

  lemma OnceCons(j: Job, r: seq<Job>)
    requires Once(r) && j !in r
    ensures Once([j] + r)
  {
    assert forall i :: 0 <= i < |r| ==> r[i] in r;
  }

  lemma {:induction false} RemovedAbsent(jobs: seq<Job>, j: Job)
    requires j !in jobs
    ensures Removed(jobs, j) == jobs
  {
    if jobs != [] { RemovedAbsent(jobs[1..], j); }
  }

  // BPending_Set: to the front, wherever it was before.
  function SetJob(jobs: seq<Job>, j: Job): seq<Job> {
    [j] + Removed(jobs, j)
  }

  lemma SetJobIs(jobs: seq<Job>, j: Job)
    requires Once(jobs)
    ensures Once(SetJob(jobs, j)) && SetJob(jobs, j)[0] == j
    ensures forall x :: x in SetJob(jobs, j) <==> x in jobs || x == j
  {
    RemovedIs(jobs, j);
    OnceCons(j, Removed(jobs, j));
  }

  class PendingGroup {
    var jobs: seq<Job>

    constructor ()
      ensures jobs == []
    {
      jobs := [];
    }

    // BPending_Set
    method Set(j: Job)
      modifies this
      ensures jobs == SetJob(old(jobs), j)
    {
      if j in jobs {
        jobs := Removed(jobs, j);
      } else {
        RemovedAbsent(jobs, j);
      }
      jobs := [j] + jobs;
    }

    // BPending_Unset
    method Unset(j: Job)
      modifies this
      ensures jobs == Removed(old(jobs), j)
    {
      if j in jobs {
        jobs := Removed(jobs, j);
      } else {
        RemovedAbsent(jobs, j);
      }
    }

    // BPendingGroup_ExecuteJob, up to the call of the handler
    method TakeJob() returns (j: Job)
      requires jobs != []
      modifies this
      ensures old(jobs) == [j] + jobs
    {
      j := jobs[0];
      jobs := jobs[1..];
    }
  }

  // ---------------------------------------------------------------------------------------
  // The interface
  // ---------------------------------------------------------------------------------------

  type Packet = seq<byte>

  datatype Phase = Idle | OperationPending | Busy | DonePending

  // What the two sides see happen.
  datatype Call =
    | Sent(data: Packet)    // Sender_Send
    | Called(data: Packet)  // handler_operation
    | Cancelled             // handler_requestcancel
    | Finished              // Done
    | Completed             // handler_done

  datatype State = State(
    mtu: nat,
    phase: Phase,
    cancelRequested: bool,
    hasCancel: bool,
    data: Packet,      // job_operation_data
    jobs: seq<Job>,
    log: seq<Call>)

  datatype Event =
    | Send(data: Packet)
    | Done
    | RequestCancel
    | Execute
    | SetForeign(id: nat)
    | UnsetForeign(id: nat)

  // The ASSERTs of Send, Done and RequestCancel: what the two sides owe the interface.
  predicate Enabled(s: State, e: Event) {
    match e
    case Send(data) => s.phase.Idle? && |data| <= s.mtu
    case Done => s.phase.Busy?
    case RequestCancel => !s.phase.Idle? && s.hasCancel
    case Execute => s.jobs != []
    case SetForeign(id) => true
    case UnsetForeign(id) => true
  }

  // The three job handlers.
  function Handle(s: State, j: Job): State {
    match j
    case Operation => s.(phase := Busy, log := s.log + [Called(s.data)])
    case Cancel => s.(log := s.log + [Cancelled])
    case DoneJob => s.(phase := Idle, log := s.log + [Completed])
    case Foreign(id) => s
  }

  // The ASSERTs of the three job handlers.
  predicate HandlerAsserts(s: State, j: Job) {
    match j
    case Operation => s.phase.OperationPending?
    case Cancel => s.phase.Busy? && s.cancelRequested && s.hasCancel
    case DoneJob => s.phase.DonePending?
    case Foreign(id) => true
  }

  function Step(s: State, e: Event): State
    requires Enabled(s, e)
  {
    match e
    case Send(data) =>
      s.(data := data, jobs := SetJob(s.jobs, Operation), phase := OperationPending, cancelRequested := false,
         log := s.log + [Sent(data)])
    case Done =>
      s.(jobs := SetJob(Removed(s.jobs, Cancel), DoneJob), phase := DonePending, log := s.log + [Finished])
    case RequestCancel =>
      if s.cancelRequested then s
      else
        var t := s.(cancelRequested := true);
        (match s.phase
         case OperationPending => t.(jobs := SetJob(Removed(s.jobs, Operation), DoneJob), phase := DonePending)
         case Busy => t.(jobs := SetJob(s.jobs, Cancel))
         case _ => t)
    case Execute => Handle(s.(jobs := s.jobs[1..]), s.jobs[0])
    case SetForeign(id) => s.(jobs := SetJob(s.jobs, Foreign(id)))
    case UnsetForeign(id) => s.(jobs := Removed(s.jobs, Foreign(id)))
  }

  // Which jobs are set.
  ghost predicate JobsMatch(s: State) {
    && Once(s.jobs)
    && (Operation in s.jobs <==> s.phase.OperationPending?)
    && (DoneJob in s.jobs <==> s.phase.DonePending?)
    && (Cancel in s.jobs ==> s.phase.Busy? && s.cancelRequested && s.hasCancel)
  }

  // One packet's life, from Send to the done callback: taken by the provider, which says it is
  // done, perhaps after it has been asked to cancel; or cancelled before the provider saw it.
  datatype Round = Plain(data: Packet) | Interrupted(data: Packet) | Dropped(data: Packet)

  function Calls(r: Round): seq<Call> {
    match r
    case Plain(data) => [Sent(data), Called(data), Finished, Completed]
    case Interrupted(data) => [Sent(data), Called(data), Cancelled, Finished, Completed]
    case Dropped(data) => [Sent(data), Completed]
  }

  function AllCalls(rounds: seq<Round>): seq<Call> {
    if rounds == [] then [] else AllCalls(rounds[..|rounds| - 1]) + Calls(rounds[|rounds| - 1])
  }

  // What has happened to the present packet, in each phase.
  ghost predicate Underway(s: State, part: seq<Call>) {
    match s.phase
    case Idle => part == []
    case OperationPending => part == [Sent(s.data)] && !s.cancelRequested
    case Busy =>
      if s.cancelRequested && Cancel !in s.jobs then part == [Sent(s.data), Called(s.data), Cancelled]
      else part == [Sent(s.data), Called(s.data)]
    case DonePending =>
      || part == [Sent(s.data)]
      || part == [Sent(s.data), Called(s.data), Finished]
      || part == [Sent(s.data), Called(s.data), Cancelled, Finished]
  }

  // The whole history is a sequence of complete rounds and the beginning of one more.
  ghost predicate History(s: State, rounds: seq<Round>, part: seq<Call>) {
    s.log == AllCalls(rounds) + part && Underway(s, part)
  }

  ghost predicate Inv(s: State) {
    JobsMatch(s) && exists rounds, part :: History(s, rounds, part)
  }

  lemma JobsStep(s: State, e: Event)
    requires JobsMatch(s) && Enabled(s, e)
    ensures JobsMatch(Step(s, e))
    ensures e.Execute? ==> HandlerAsserts(s.(jobs := s.jobs[1..]), s.jobs[0])
  {
    match e
    case Send(data) => SetJobIs(s.jobs, Operation);
    case Done =>
      RemovedIs(s.jobs, Cancel);
      SetJobIs(Removed(s.jobs, Cancel), DoneJob);
    case RequestCancel =>
      RemovedIs(s.jobs, Operation);
      SetJobIs(Removed(s.jobs, Operation), DoneJob);
      SetJobIs(s.jobs, Cancel);
    case Execute =>
      assert forall x :: x in s.jobs[1..] ==> x in s.jobs && x != s.jobs[0];
      assert forall x :: x in s.jobs ==> x in s.jobs[1..] || x == s.jobs[0];
    case SetForeign(id) => SetJobIs(s.jobs, Foreign(id));
    case UnsetForeign(id) => RemovedIs(s.jobs, Foreign(id));
  }

  // How the part of the history that belongs to the present packet grows; the done callback
  // completes a round.
  lemma HistoryStep(s: State, e: Event, rounds: seq<Round>, part: seq<Call>)
    requires JobsMatch(s) && Enabled(s, e) && History(s, rounds, part)
    ensures exists rounds2, part2 :: History(Step(s, e), rounds2, part2)
  {
    var t := Step(s, e);
    if e.Execute? && s.jobs[0].DoneJob? {
      RoundCompletes(s, rounds, part);
    } else {
      hide JobsMatch, Enabled, Underway, Step, AllCalls, Adds;
      var more := Adds(s, e);
      UnderwayStep(s, e, part);
      Regroup(AllCalls(rounds), part, more);
      assert History(t, rounds, part + more);
    }
  }

  lemma RoundCompletes(s: State, rounds: seq<Round>, part: seq<Call>)
    requires JobsMatch(s) && s.jobs != [] && s.jobs[0].DoneJob? && History(s, rounds, part)
    ensures exists rounds2, part2 :: History(Step(s, Execute), rounds2, part2)
  {
    hide Once, AllCalls, Calls;
    assert s.jobs[0] in s.jobs;
    var r := CompletedRound(s, part);
    OneMoreRound(rounds, r);
    Regroup(AllCalls(rounds), part, [Completed]);
    assert History(Step(s, Execute), rounds + [r], []);
  }

  lemma OneMoreRound(rounds: seq<Round>, r: Round)
    ensures AllCalls(rounds + [r]) + [] == AllCalls(rounds) + Calls(r)
  {
    assert (rounds + [r])[..|rounds|] == rounds;
  }

  lemma CompletedRound(s: State, part: seq<Call>) returns (r: Round)
    requires s.phase.DonePending? && Underway(s, part)
    ensures Calls(r) == part + [Completed]
  {
    r := if part == [Sent(s.data)] then Dropped(s.data)
         else if part == [Sent(s.data), Called(s.data), Finished] then Plain(s.data) else Interrupted(s.data);
  }

  // What an event adds to the history.
  function Adds(s: State, e: Event): seq<Call>
    requires Enabled(s, e)
  {
    match e
    case Send(data) => [Sent(data)]
    case Done => [Finished]
    case Execute =>
      (match s.jobs[0]
       case Operation => [Called(s.data)]
       case Cancel => [Cancelled]
       case DoneJob => [Completed]
       case Foreign(id) => [])
    case _ => []
  }

  lemma UnderwayStep(s: State, e: Event, part: seq<Call>)
    requires JobsMatch(s) && Enabled(s, e) && Underway(s, part)
    requires e.Execute? ==> !s.jobs[0].DoneJob?
    ensures Step(s, e).log == s.log + Adds(s, e) && Underway(Step(s, e), part + Adds(s, e))
  {
    JobsStep(s, e);
    CancelJobStays(s, e);
    match e
    case Send(data) => assert part + [Sent(data)] == [Sent(data)];
    case Done =>
    case RequestCancel => assert part + [] == part;
    case Execute => if s.jobs[0].Foreign? { assert part + [] == part; }
    case SetForeign(id) => assert part + [] == part;
    case UnsetForeign(id) => assert part + [] == part;
  }

  lemma CancelJobStays(s: State, e: Event)
    requires JobsMatch(s) && Enabled(s, e)
    ensures e.SetForeign? || e.UnsetForeign? || (e.Execute? && s.jobs[0].Foreign?) ==>
      (Cancel in Step(s, e).jobs <==> Cancel in s.jobs)
    ensures e.Execute? && s.jobs[0].Cancel? ==> Cancel !in Step(s, e).jobs
    ensures e.Execute? && s.jobs[0].Operation? ==> Cancel !in Step(s, e).jobs
    ensures e.RequestCancel? && s.phase.Busy? && !s.cancelRequested ==> Cancel in Step(s, e).jobs
  {
    match e
    case SetForeign(id) => SetJobIs(s.jobs, Foreign(id));
    case UnsetForeign(id) => RemovedIs(s.jobs, Foreign(id));
    case RequestCancel => SetJobIs(s.jobs, Cancel);
    case _ =>
  }

  lemma StepInv(s: State, e: Event)
    requires Inv(s) && Enabled(s, e)
    ensures Inv(Step(s, e))
    ensures e.Execute? ==> HandlerAsserts(s.(jobs := s.jobs[1..]), s.jobs[0])
  {
    JobsStep(s, e);
    var rounds, part :| History(s, rounds, part);
    HistoryStep(s, e, rounds, part);
  }

  function Begin(mtu: nat, hasCancel: bool): State {
    State(mtu, Idle, false, hasCancel, [], [], [])
  }

  ghost predicate Possible(s: State, events: seq<Event>)
    decreases |events|
  {
    events == [] || (Enabled(s, events[0]) && Possible(Step(s, events[0]), events[1..]))
  }

  function Run(s: State, events: seq<Event>): State
    requires Possible(s, events)
    decreases |events|
  {
    if events == [] then s else Run(Step(s, events[0]), events[1..])
  }

  lemma {:induction false} RunInv(s: State, events: seq<Event>)
    requires Inv(s) && Possible(s, events)
    ensures Inv(Run(s, events))
    decreases |events|
  {
    if events != [] {
      StepInv(s, events[0]);
      RunInv(Step(s, events[0]), events[1..]);
    }
  }

  // Over all runs: which jobs are set follows from the phase, and every packet sent is completed
  // exactly once before the next one is sent, having been given to the provider at most once and
  // cancelled at most once, never after the provider was done with it.
  lemma ExactlyOnce(mtu: nat, hasCancel: bool, events: seq<Event>)
    requires Possible(Begin(mtu, hasCancel), events)
    ensures var s := Run(Begin(mtu, hasCancel), events);
      && JobsMatch(s)
      && exists rounds, part :: History(s, rounds, part)
  {
    assert History(Begin(mtu, hasCancel), [], []);
    RunInv(Begin(mtu, hasCancel), events);
  }

  // ---------------------------------------------------------------------------------------
  // No callback is lost
  // ---------------------------------------------------------------------------------------

  // Running the jobs that are set before the done job, and then that, calls the sender back.
  lemma {:induction false} DoneIsReached(s: State, k: nat)
    requires JobsMatch(s) && s.phase.DonePending? && k < |s.jobs| && s.jobs[k] == DoneJob
    ensures var events := seq(k + 1, i => Execute);
      Possible(s, events) && Run(s, events).phase.Idle? && Run(s, events).log == s.log + [Completed]
    decreases k
  {
    var events := seq(k + 1, i => Execute);
    JobsStep(s, Execute);
    var t := Step(s, Execute);
    assert events[1..] == seq(k, i => Execute);
    if k == 0 {
      assert events[1..] == [];
    } else {
      assert s.jobs[0] != DoneJob && s.jobs[0] in s.jobs;
      assert t == s.(jobs := s.jobs[1..]);
      DoneIsReached(t, k - 1);
    }
  }

  // ---------------------------------------------------------------------------------------
  // The code
  // ---------------------------------------------------------------------------------------

  class Interface {
    const mtu: nat
    const group: PendingGroup
    var hasCancel: bool     // handler_requestcancel is not NULL
    var data: Packet
    var phase: Phase
    var cancelRequested: bool
    ghost var log: seq<Call>

    ghost function Now(): State
      reads this, group
    {
      State(mtu, phase, cancelRequested, hasCancel, data, group.jobs, log)
    }

    // PacketPassInterface_Init, on a job list that holds none of its jobs
    constructor (mtu: nat, group: PendingGroup)
      requires Once(group.jobs) && Operation !in group.jobs && Cancel !in group.jobs && DoneJob !in group.jobs
      ensures this.mtu == mtu && this.group == group && group.jobs == old(group.jobs)
      ensures Inv(Now()) && phase.Idle? && !hasCancel && log == []
    {
      this.mtu := mtu;
      this.group := group;
      hasCancel, data, phase, cancelRequested, log := false, [], Idle, false, [];
      new;
      assert History(Now(), [], []);
    }

    // PacketPassInterface_EnableCancel
    method EnableCancel()
      requires Inv(Now()) && phase.Idle?
      modifies this`hasCancel
      ensures Inv(Now()) && Now() == old(Now()).(hasCancel := true)
    {
      ghost var rounds, part :| History(Now(), rounds, part);
      hasCancel := true;
      assert History(Now(), rounds, part);
    }

    // PacketPassInterface_Sender_Send
    method SenderSend(data: Packet)
      requires Inv(Now()) && Enabled(Now(), Send(data))
      modifies this, group
      ensures Now() == Step(old(Now()), Send(data)) && Inv(Now())
    {
      StepInv(Now(), Send(data));
      hide Inv;
      this.data := data;
      group.Set(Operation);
      phase := OperationPending;
      cancelRequested := false;
      log := log + [Sent(data)];
    }

    // PacketPassInterface_Done
    method ProviderDone()
      requires Inv(Now()) && Enabled(Now(), Done)
      modifies this, group
      ensures Now() == Step(old(Now()), Done) && Inv(Now())
    {
      StepInv(Now(), Done);
      hide Inv;
      group.Unset(Cancel);
      group.Set(DoneJob);
      phase := DonePending;
      log := log + [Finished];
    }

    // PacketPassInterface_Sender_RequestCancel
    method SenderRequestCancel()
      requires Inv(Now()) && Enabled(Now(), RequestCancel)
      modifies this, group
      ensures Now() == Step(old(Now()), RequestCancel) && Inv(Now())
    {
      StepInv(Now(), RequestCancel);
      hide Inv;
      if cancelRequested {
        return;
      }
      cancelRequested := true;
      if phase.OperationPending? {
        group.Unset(Operation);
        group.Set(DoneJob);
        phase := DonePending;
      } else if phase.Busy? {
        group.Set(Cancel);
      }
    }

    // The event loop runs a job, and the job handler, if it is one of this interface, moves the
    // state and calls the other side.
    method ExecuteJob() returns (j: Job)
      requires Inv(Now()) && Enabled(Now(), Execute)
      modifies this, group
      ensures old(group.jobs) == [j] + group.jobs
      ensures HandlerAsserts(old(Now()).(jobs := group.jobs), j)
      ensures Now() == Step(old(Now()), Execute) && Inv(Now())
    {
      StepInv(Now(), Execute);
      hide Inv;
      j := group.TakeJob();
      match j
      case Operation =>
        phase := Busy;
        log := log + [Called(data)];
      case Cancel =>
        log := log + [Cancelled];
      case DoneJob =>
        phase := Idle;
        log := log + [Completed];
      case Foreign(id) =>
    }
  }
}
