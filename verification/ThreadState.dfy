/** Starting and stopping a worker thread (src/nvwal_impl_init.c, and the main functions of the
    flusher and the fsyncer in src/nvwal_api.c): a host that initializes, later requests a stop and
    waits for it, and any number of threads that try to become the worker. One step is one atomic
    access to the shared state byte, or one round of work. */
module ThreadState {

  datatype Shared = BeingInitialized | AcceptStart | Running | RunningAndRequestedStop | ProhibitStart | Stopped

  /** The host: initialization, then one call that requests the stop and waits. */
  datatype Host =
    | Initializing
    | Serving
    | CheckState
    | TryProhibit
    | TryRequest
    | AwaitStopped
    | Returned

  datatype Worker =
    | NotStarted
    | Refused
    | CheckStop
    | Working
    | Leaving
    | Finished
  {
    /** Inside its main loop, or about to announce that it left it. */
    predicate Active() {
      CheckStop? || Working? || Leaving?
    }
  }

  datatype State = State(shared: Shared, host: Host, workers: seq<Worker>)

  // ================================================================ steps

  predicate CanHost(s: State) {
    !s.host.Returned? && (s.host.AwaitStopped? ==> s.shared.Stopped?)
  }

  /** `ready` says whether initialization succeeded; if not, the host stops right away. */
  function HostStep(s: State, ready: bool): State
    requires CanHost(s)
  {
    match s.host
    case Initializing =>
      if ready then s.(shared := AcceptStart, host := Serving) else s.(host := CheckState)
    case Serving => s.(host := CheckState)
    case CheckState =>
      s.(host := if s.shared.BeingInitialized? || s.shared.ProhibitStart? || s.shared.Stopped? then Returned else TryProhibit)
    case TryProhibit =>
      if s.shared.AcceptStart? then s.(shared := ProhibitStart, host := Returned) else s.(host := TryRequest)
    case TryRequest =>
      if s.shared.Running? then s.(shared := RunningAndRequestedStop, host := AwaitStopped) else s.(host := Returned)
    case AwaitStopped => s.(host := Returned)
    case Returned => s
  }

  predicate CanWork(s: State, i: nat) {
    i < |s.workers| && !s.workers[i].Refused? && !s.workers[i].Finished?
  }

  /** `leave` is an error in the round of work, or the prompt check after it. */
  function WorkerStep(s: State, i: nat, leave: bool): State
    requires CanWork(s, i)
  {
    match s.workers[i]
    case NotStarted =>
      if s.shared.AcceptStart? then s.(shared := Running, workers := s.workers[i := CheckStop])
      else s.(workers := s.workers[i := Refused])
    case CheckStop => s.(workers := s.workers[i := if s.shared.RunningAndRequestedStop? then Leaving else Working])
    case Working => s.(workers := s.workers[i := if leave then Leaving else CheckStop])
    case Leaving => s.(shared := Stopped, workers := s.workers[i := Finished])
    case _ => s
  }

  datatype Step = OfHost(ready: bool) | OfWorker(i: nat, leave: bool)

  predicate Next(s: State, step: Step, s': State) {
    match step
    case OfHost(ready) => CanHost(s) && s' == HostStep(s, ready)
    case OfWorker(i, leave) => CanWork(s, i) && s' == WorkerStep(s, i, leave)
  }

  // ================================================================ invariant

  ghost predicate IsActive(s: State, i: nat) {
    i < |s.workers| && s.workers[i].Active()
  }

  ghost predicate Inv(s: State) {
    && (s.shared.Running? || s.shared.RunningAndRequestedStop? <==> exists i :: IsActive(s, i))
    && (forall i, j | IsActive(s, i) && IsActive(s, j) :: i == j)
    && (s.host.Initializing? ==> s.shared.BeingInitialized?)
    && (s.shared.RunningAndRequestedStop? <==> s.host.AwaitStopped? && !s.shared.Stopped?)
    && (s.host.AwaitStopped? ==> s.shared.RunningAndRequestedStop? || s.shared.Stopped?)
    && (s.host.Serving? ==> !s.shared.BeingInitialized? && !s.shared.ProhibitStart?)
    && (s.host.TryProhibit? ==> s.shared.AcceptStart? || s.shared.Running? || s.shared.Stopped?)
    && (s.host.TryRequest? ==> s.shared.Running? || s.shared.Stopped?)
    && (s.host.Returned? ==> s.shared.BeingInitialized? || s.shared.ProhibitStart? || s.shared.Stopped?)
    && (s.shared.ProhibitStart? ==> s.host.Returned?)
  }

  lemma HostKeeps(s: State, ready: bool)
    requires Inv(s) && CanHost(s)
    ensures Inv(HostStep(s, ready))
  {
    var s' := HostStep(s, ready);
    assert forall i :: IsActive(s', i) <==> IsActive(s, i);
  }

  lemma WorkerKeeps(s: State, i: nat, leave: bool)
    requires Inv(s) && CanWork(s, i)
    ensures Inv(WorkerStep(s, i, leave))
  {
    var s' := WorkerStep(s, i, leave);
    assert forall j: nat | j != i :: IsActive(s', j) <==> IsActive(s, j);
    if s'.workers[i].Active() { assert IsActive(s', i); }
    if s.workers[i].Active() { assert IsActive(s, i); }
  }

  // ================================================================ runs

  ghost predicate IsInitial(s: State) {
    s.shared.BeingInitialized? && s.host.Initializing? && forall i | 0 <= i < |s.workers| :: s.workers[i].NotStarted?
  }

  ghost predicate IsRun(states: seq<State>, steps: seq<Step>) {
    && |states| == |steps| + 1
    && IsInitial(states[0])
    && forall k | 0 <= k < |steps| :: Next(states[k], steps[k], states[k + 1])
  }

  lemma {:induction false} RunKeeps(states: seq<State>, steps: seq<Step>, k: nat)
    requires IsRun(states, steps) && k < |states|
    ensures Inv(states[k])
    decreases k
  {
    if k == 0 {
    } else {
      RunKeeps(states, steps, k - 1);
      assert Next(states[k - 1], steps[k - 1], states[k]);
      match steps[k - 1]
      case OfHost(ready) => HostKeeps(states[k - 1], ready);
      case OfWorker(i, leave) => WorkerKeeps(states[k - 1], i, leave);
    }
  }

  /** Once stopped, or once starting is prohibited, it stays that way. */
  lemma {:induction false} FinalStatesAbsorb(states: seq<State>, steps: seq<Step>, k: nat, m: nat)
    requires IsRun(states, steps) && k <= m < |states|
    requires states[k].shared.Stopped? || states[k].shared.ProhibitStart?
    ensures states[m].shared == states[k].shared
    decreases m
  {
    if k == m {
    } else {
      FinalStatesAbsorb(states, steps, k, m - 1);
      RunKeeps(states, steps, m - 1);
      assert Next(states[m - 1], steps[m - 1], states[m]);
      match steps[m - 1]
      case OfHost(_) =>
      case OfWorker(i, _) => assert !IsActive(states[m - 1], i);
    }
  }

  /** At most one thread is ever in the main loop. */
  lemma OneWorkerAtATime(states: seq<State>, steps: seq<Step>, k: nat, i: nat, j: nat)
    requires IsRun(states, steps) && k < |states|
    requires IsActive(states[k], i) && IsActive(states[k], j)
    ensures i == j
  {
    RunKeeps(states, steps, k);
  }

  lemma {:induction false} StaysReturned(states: seq<State>, steps: seq<Step>, k: nat, m: nat)
    requires IsRun(states, steps) && k <= m < |states| && states[k].host.Returned?
    ensures states[m].host.Returned?
    decreases m
  {
    if k == m {
    } else {
      StaysReturned(states, steps, k, m - 1);
      assert Next(states[m - 1], steps[m - 1], states[m]);
    }
  }

  /** After the stop call returned, no thread is in a main loop and none ever enters one. */
  lemma NothingRunsAfterStop(states: seq<State>, steps: seq<Step>, k: nat, m: nat, i: nat)
    requires IsRun(states, steps) && k <= m < |states| && states[k].host.Returned?
    ensures !IsActive(states[m], i)
  {
    StaysReturned(states, steps, k, m);
    RunKeeps(states, steps, m);
  }

  /** The assertions in the code: what the host finds after a failed exchange, and what an active
      worker finds. */
  lemma AssertionsHold(states: seq<State>, steps: seq<Step>, k: nat, i: nat)
    requires IsRun(states, steps) && k < |states|
    ensures var s := states[k];
            && (s.host.TryProhibit? ==> s.shared.AcceptStart? || s.shared.Running? || s.shared.Stopped?)
            && (s.host.TryRequest? ==> s.shared.Running? || s.shared.Stopped?)
            && (s.host.Initializing? ==> s.shared.BeingInitialized?)
            && (IsActive(s, i) ==> s.shared.Running? || s.shared.RunningAndRequestedStop?)
  {
    RunKeeps(states, steps, k);
  }

  // ================================================================ the stop request

  /** A stop was requested, or the worker is gone. */
  predicate StopSeen(s: State) {
    s.shared.RunningAndRequestedStop? || s.shared.Stopped?
  }

  lemma {:induction false} StopStays(states: seq<State>, steps: seq<Step>, k: nat, m: nat)
    requires IsRun(states, steps) && k <= m < |states| && StopSeen(states[k])
    ensures StopSeen(states[m])
    decreases m
  {
    if k == m {
    } else {
      StopStays(states, steps, k, m - 1);
      RunKeeps(states, steps, m - 1);
      assert Next(states[m - 1], steps[m - 1], states[m]);
    }
  }

  /** Once a stop is requested, a thread that is not in the middle of a round of work never begins
      another one. */
  lemma {:induction false} StopIsHeeded(states: seq<State>, steps: seq<Step>, k: nat, m: nat, i: nat)
    requires IsRun(states, steps) && k <= m < |states| && StopSeen(states[k])
    requires i < |states[k].workers| && !states[k].workers[i].Working?
    ensures i < |states[m].workers| && !states[m].workers[i].Working?
    decreases m
  {
    if k == m {
    } else {
      StopIsHeeded(states, steps, k, m - 1, i);
      StopStays(states, steps, k, m - 1);
      RunKeeps(states, steps, m - 1);
      assert Next(states[m - 1], steps[m - 1], states[m]);
      if states[m - 1].workers[i].CheckStop? { assert IsActive(states[m - 1], i); }
    }
  }

  /** Until then, and as long as no round ends with an error or sees the request, a worker goes on:
      it is in its check or in a round of work, and it comes from the one to the other. */
  lemma {:induction false} WorksOn(states: seq<State>, steps: seq<Step>, k: nat, m: nat, i: nat)
    requires IsRun(states, steps) && k <= m < |states| && IsActive(states[k], i) && !states[k].workers[i].Leaving?
    requires forall q | k <= q < m :: !StopSeen(states[q]) && (steps[q].OfWorker? && steps[q].i == i ==> !steps[q].leave)
    ensures i < |states[m].workers| && (states[m].workers[i].CheckStop? || states[m].workers[i].Working?)
    ensures k < m && steps[m - 1].OfWorker? && steps[m - 1].i == i ==>
              i < |states[m - 1].workers| && states[m].workers[i] != states[m - 1].workers[i]
    decreases m
  {
    if k == m {
    } else {
      WorksOn(states, steps, k, m - 1, i);
      assert Next(states[m - 1], steps[m - 1], states[m]);
    }
  }

  /** So a thread leaves its loop only after a request, or with a round that says so. */
  lemma {:induction false} LeavesForAReason(states: seq<State>, steps: seq<Step>, m: nat, i: nat) returns (q: nat)
    requires IsRun(states, steps) && m < |states| && i < |states[m].workers|
    requires states[m].workers[i].Leaving? || states[m].workers[i].Finished?
    ensures q < m && (StopSeen(states[q]) || steps[q] == OfWorker(i, true))
    decreases m
  {
    assert m > 0;
    assert Next(states[m - 1], steps[m - 1], states[m]);
    if i < |states[m - 1].workers| && (states[m - 1].workers[i].Leaving? || states[m - 1].workers[i].Finished?) {
      q := LeavesForAReason(states, steps, m - 1, i);
    } else {
      q := m - 1;
    }
  }

  /** A round that ends with an error is the last one. */
  lemma {:induction false} ErrorEndsTheLoop(states: seq<State>, steps: seq<Step>, k: nat, m: nat, i: nat)
    requires IsRun(states, steps) && k < m < |states| && steps[k] == OfWorker(i, true)
    requires i < |states[k].workers| && states[k].workers[i].Working?
    ensures i < |states[m].workers| && (states[m].workers[i].Leaving? || states[m].workers[i].Finished?)
    decreases m
  {
    assert Next(states[m - 1], steps[m - 1], states[m]);
    if m == k + 1 {
    } else {
      ErrorEndsTheLoop(states, steps, k, m - 1, i);
    }
  }

  /** A thread that is not let in stays out. */
  lemma {:induction false} RefusedForGood(states: seq<State>, steps: seq<Step>, k: nat, m: nat, i: nat)
    requires IsRun(states, steps) && k < m < |states| && steps[k].OfWorker? && steps[k].i == i
    requires i < |states[k].workers| && states[k].workers[i].NotStarted? && !states[k].shared.AcceptStart?
    ensures i < |states[m].workers| && states[m].workers[i].Refused?
    decreases m
  {
    assert Next(states[m - 1], steps[m - 1], states[m]);
    if m == k + 1 {
    } else {
      RefusedForGood(states, steps, k, m - 1, i);
    }
  }

  /** After a failed initialization no thread ever runs. */
  lemma {:induction false} FailedInitRunsNothing(states: seq<State>, steps: seq<Step>, k: nat, m: nat, i: nat)
    requires IsRun(states, steps) && k < m < |states| && steps[k] == OfHost(false) && states[k].host.Initializing?
    ensures states[m].shared.BeingInitialized? && (states[m].host.CheckState? || states[m].host.Returned?)
    ensures !IsActive(states[m], i)
    decreases m
  {
    assert Next(states[m - 1], steps[m - 1], states[m]);
    RunKeeps(states, steps, m - 1);
    RunKeeps(states, steps, m);
    if m == k + 1 {
    } else {
      FailedInitRunsNothing(states, steps, k, m - 1, i);
      if steps[m - 1].OfWorker? { assert !IsActive(states[m - 1], steps[m - 1].i); }
    }
  }

  /** `n` steps of the host in a row. */
  ghost predicate HostGoesTo(s: State, n: nat, t: State)
    decreases n
  {
    if n == 0 then s == t else CanHost(s) && HostGoesTo(HostStep(s, true), n - 1, t)
  }

  /** The stop call, left alone: it returns at once if there is nothing to stop, prohibits the start of a
      thread that has not started, and otherwise requests the stop and waits. */
  lemma StopCall(s: State) returns (n: nat, t: State)
    requires s.host.CheckState? && !s.shared.RunningAndRequestedStop?
    ensures HostGoesTo(s, n, t) && t.workers == s.workers
    ensures match s.shared
            case AcceptStart => n == 2 && t.shared.ProhibitStart? && t.host.Returned?
            case Running => n == 3 && t.shared.RunningAndRequestedStop? && t.host.AwaitStopped?
            case _ => n == 1 && t.shared == s.shared && t.host.Returned?
  {
    var s1 := HostStep(s, true);
    if s1.host.Returned? {
      n, t := 1, s1;
      assert HostGoesTo(s1, 0, t);
    } else {
      var s2 := HostStep(s1, true);
      if s2.host.Returned? {
        n, t := 2, s2;
        assert HostGoesTo(s2, 0, t);
      } else {
        n, t := 3, HostStep(s2, true);
        assert HostGoesTo(t, 0, t);
        assert HostGoesTo(s2, 1, t);
      }
      assert HostGoesTo(s1, n - 1, t);
    }
  }

  /** A run that ends in `s`. */
  ghost predicate RunTo(states: seq<State>, steps: seq<Step>, s: State) {
    IsRun(states, steps) && states[|steps|] == s
  }

  lemma Begin(s: State)
    requires IsInitial(s)
    ensures RunTo([s], [], s)
  {
  }

  lemma Extend(states: seq<State>, steps: seq<Step>, s: State, step: Step, s': State)
    requires RunTo(states, steps, s) && Next(s, step, s')
    ensures RunTo(states + [s'], steps + [step], s')
  {
    var states', steps' := states + [s'], steps + [step];
    forall k | 0 <= k < |steps'| ensures Next(states'[k], steps'[k], states'[k + 1]) {
      if k < |steps| { assert Next(states[k], steps[k], states[k + 1]); }
    }
  }

  /** A thread starts and does rounds of work. */
  lemma WorkHappens() returns (states: seq<State>, steps: seq<Step>)
    ensures RunTo(states, steps, State(Running, Serving, [Working])) && |steps| == 5
    ensures states[3].workers == [Working]
  {
    hide RunTo;
    states, steps := [State(BeingInitialized, Initializing, [NotStarted])], [];
    Begin(states[0]);
    var s1, s2 := State(AcceptStart, Serving, [NotStarted]), State(Running, Serving, [CheckStop]);
    var s3 := State(Running, Serving, [Working]);
    Extend(states, steps, states[0], OfHost(true), s1);
    states, steps := states + [s1], steps + [OfHost(true)];
    Extend(states, steps, s1, OfWorker(0, false), s2);
    states, steps := states + [s2], steps + [OfWorker(0, false)];
    Extend(states, steps, s2, OfWorker(0, false), s3);
    states, steps := states + [s3], steps + [OfWorker(0, false)];
    Extend(states, steps, s3, OfWorker(0, false), s2);
    states, steps := states + [s2], steps + [OfWorker(0, false)];
    Extend(states, steps, s2, OfWorker(0, false), s3);
    states, steps := states + [s3], steps + [OfWorker(0, false)];
  }

  /** In the middle of a round it is asked to stop. */
  lemma RequestHappens() returns (states: seq<State>, steps: seq<Step>)
    ensures RunTo(states, steps, State(RunningAndRequestedStop, AwaitStopped, [Working]))
  {
    hide RunTo;
    states, steps := WorkHappens();
    var s := State(Running, Serving, [Working]);
    Extend(states, steps, s, OfHost(true), s.(host := CheckState));
    states, steps := states + [s.(host := CheckState)], steps + [OfHost(true)];
    Extend(states, steps, s.(host := CheckState), OfHost(true), s.(host := TryProhibit));
    states, steps := states + [s.(host := TryProhibit)], steps + [OfHost(true)];
    Extend(states, steps, s.(host := TryProhibit), OfHost(true), s.(host := TryRequest));
    states, steps := states + [s.(host := TryRequest)], steps + [OfHost(true)];
    var t := State(RunningAndRequestedStop, AwaitStopped, [Working]);
    Extend(states, steps, s.(host := TryRequest), OfHost(true), t);
    states, steps := states + [t], steps + [OfHost(true)];
  }

  /** It leaves at its next check, and the host returns. */
  lemma StopHappens() returns (states: seq<State>, steps: seq<Step>)
    ensures RunTo(states, steps, State(Stopped, Returned, [Finished]))
  {
    hide RunTo;
    states, steps := RequestHappens();
    var s := State(RunningAndRequestedStop, AwaitStopped, [Working]);
    Extend(states, steps, s, OfWorker(0, false), s.(workers := [CheckStop]));
    states, steps := states + [s.(workers := [CheckStop])], steps + [OfWorker(0, false)];
    Extend(states, steps, s.(workers := [CheckStop]), OfWorker(0, false), s.(workers := [Leaving]));
    states, steps := states + [s.(workers := [Leaving])], steps + [OfWorker(0, false)];
    var t := State(Stopped, AwaitStopped, [Finished]);
    Extend(states, steps, s.(workers := [Leaving]), OfWorker(0, false), t);
    states, steps := states + [t], steps + [OfWorker(0, false)];
    Extend(states, steps, t, OfHost(true), t.(host := Returned));
    states, steps := states + [t.(host := Returned)], steps + [OfHost(true)];
  }

  // ================================================================ the assertion of a refused start

  /** A thread that is not let in must not find another one running. It does exactly if another
      thread is active and no stop was requested yet; so with one thread it never does. */
  lemma StartAssertionExactly(states: seq<State>, steps: seq<Step>, k: nat, i: nat)
    requires IsRun(states, steps) && k < |states| && i < |states[k].workers| && states[k].workers[i].NotStarted?
    ensures var s := states[k];
            s.shared.Running? <==> (exists j | j != i :: IsActive(s, j)) && !s.host.AwaitStopped?
    ensures |states[k].workers| == 1 ==> !states[k].shared.Running?
  {
    RunKeeps(states, steps, k);
    var s := states[k];
    assert !IsActive(s, i);
    assert (exists j :: IsActive(s, j)) <==> (exists j | j != i :: IsActive(s, j));
    if |s.workers| == 1 {
      assert forall j: nat :: IsActive(s, j) ==> j == 0;
    }
  }

  /** Two threads calling the same main function get there. */
  lemma SecondStartFindsRunning() returns (states: seq<State>, steps: seq<Step>)
    ensures IsRun(states, steps) && |steps| == 2
    ensures |states[2].workers| == 2 && states[2].workers[1].NotStarted? && states[2].shared.Running?
  {
    var s0 := State(BeingInitialized, Initializing, [NotStarted, NotStarted]);
    var s1 := HostStep(s0, true);
    var s2 := WorkerStep(s1, 0, false);
    states, steps := [s0, s1, s2], [OfHost(true), OfWorker(0, false)];
  }
}
