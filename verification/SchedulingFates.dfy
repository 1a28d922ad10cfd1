/** Where tasks end up, on which devices they run, and what the quota lets in, over any run. */
module SchedulingFates {
  import opened Hashing
  import opened Scheduling

  // ---------------------------------------------------------------------------------------------
  // Which calls end a task
  // ---------------------------------------------------------------------------------------------

  /** Call j is a completion that met the id running. */
  ghost predicate CompletedBy(states: seq<State>, ops: seq<Op>, j: nat, id: TaskId)
    requires j < |ops| && j < |states|
  {
    ops[j] == OpComplete(id) && id in states[j].running
  }

  /** Call j is a failure that met the id running, or a cancellation that met it waiting. */
  ghost predicate FailedBy(states: seq<State>, ops: seq<Op>, j: nat, id: TaskId)
    requires j < |ops| && j < |states|
  {
    || (ops[j] == OpFail(id) && id in states[j].running)
    || (ops[j] == OpCancel(id) && exists t :: t in states[j].pending && t.id == id)
  }

  /** A pass that starts a task with the id. */
  ghost predicate Starts(op: Op, id: TaskId) {
    op.OpSchedule? && exists i :: 0 <= i < |op.pass.started| && op.pass.started[i].id == id
  }

  lemma {:induction false} PassLeaves(p: Pass, i: nat)
    requires IsStart(p) && i < |p.states|
    ensures p.states[i].completed == p.states[0].completed && p.states[i].failed == p.states[0].failed
    ensures p.states[i].submitted == p.states[0].submitted && p.states[i].quotas == p.states[0].quotas
  {
    if i > 0 {
      PassLeaves(p, i - 1);
      var g := Turn(p, i - 1);
    }
  }

  lemma CompletedStep(s: State, op: Op, next: State, id: TaskId)
    requires Steps(s, op, next)
    ensures id in next.completed <==> id in s.completed || (op == OpComplete(id) && id in s.running)
  {
    if op.OpSchedule? {
      PassLeaves(op.pass, |op.pass.started|);
    }
  }

  lemma FailedStep(s: State, op: Op, next: State, id: TaskId)
    requires Steps(s, op, next)
    ensures id in next.failed <==>
            || id in s.failed || (op == OpFail(id) && id in s.running)
            || (op == OpCancel(id) && exists t :: t in s.pending && t.id == id)
  {
    match op {
      case OpCancel(other) => CancelLeaves(s, other, next);
      case OpSchedule(pass) => PassLeaves(pass, |pass.started|);
      case _ =>
    }
  }

  /** Over any run an id is among the completed exactly when some completion met it running. */
  lemma {:induction false} CompletedIff(states: seq<State>, ops: seq<Op>, k: nat, id: TaskId)
    requires IsRun(states, ops) && k <= |ops|
    ensures id in states[k].completed <==> exists j :: 0 <= j < k && CompletedBy(states, ops, j, id)
  {
    if k > 0 {
      CompletedIff(states, ops, k - 1, id);
      assert StepAt(states, ops, k - 1);
      CompletedStep(states[k - 1], ops[k - 1], states[k], id);
      if ops[k - 1] == OpComplete(id) && id in states[k - 1].running {
        assert CompletedBy(states, ops, k - 1, id);
      }
    }
  }

  /** Over any run an id is among the failed exactly when a failure met it running or a cancellation met it
      waiting. */
  lemma {:induction false} FailedIff(states: seq<State>, ops: seq<Op>, k: nat, id: TaskId)
    requires IsRun(states, ops) && k <= |ops|
    ensures id in states[k].failed <==> exists j :: 0 <= j < k && FailedBy(states, ops, j, id)
  {
    if k > 0 {
      FailedIff(states, ops, k - 1, id);
      assert StepAt(states, ops, k - 1);
      FailedStep(states[k - 1], ops[k - 1], states[k], id);
      if id in states[k].failed && id !in states[k - 1].failed {
        assert FailedBy(states, ops, k - 1, id);
      }
    }
  }

  // ---------------------------------------------------------------------------------------------
  // Which tasks run
  // ---------------------------------------------------------------------------------------------

  lemma {:induction false} PassRunning(p: Pass, i: nat, id: TaskId)
    requires IsStart(p) && i < |p.states|
    ensures id in p.states[i].running <==>
            id in p.states[0].running || exists j :: 0 <= j < i && p.started[j].id == id
  {
    if i > 0 {
      PassRunning(p, i - 1, id);
      var g := Turn(p, i - 1);
      if p.started[i - 1].id == id {
        assert id in p.states[i].running;
      }
    }
  }

  lemma RunningStep(s: State, op: Op, next: State, id: TaskId)
    requires Steps(s, op, next)
    ensures id in next.running <==>
            Starts(op, id) || (id in s.running && op != OpComplete(id) && op != OpFail(id))
  {
    match op {
      case OpCancel(other) => CancelLeaves(s, other, next);
      case OpComplete(other) => CompleteLeaves(s, other, id);
      case OpFail(other) => FailLeaves(s, other, id);
      case OpSchedule(pass) => PassRunning(pass, |pass.started|, id);
      case _ =>
    }
  }

  lemma CompleteLeaves(s: State, other: TaskId, id: TaskId)
    ensures id in Complete(s, other).running <==> id in s.running && id != other
  {
  }

  lemma FailLeaves(s: State, other: TaskId, id: TaskId)
    ensures id in Fail(s, other).running <==> id in s.running && id != other
  {
  }

  lemma CancelLeaves(s: State, id: TaskId, next: State)
    requires Cancels(s, id, next)
    ensures next.running.Keys == s.running.Keys && next.completed == s.completed
    ensures next.failed.Keys == s.failed.Keys + if Waits(s, id) then {id} else {}
  {
    if Waits(s, id) {
      var t :| t in s.pending && t.id == id && next == CancelPending(s, t);
      CancelPendingLeaves(s, t);
    } else if id in s.running {
      CancelRunningLeaves(s, id);
    }
  }

  lemma CancelPendingLeaves(s: State, t: Task)
    ensures var next := CancelPending(s, t);
            next.running == s.running && next.completed == s.completed && next.failed.Keys == s.failed.Keys + {t.id}
  {
  }

  lemma CancelRunningLeaves(s: State, id: TaskId)
    requires id in s.running
    ensures var next := CancelRunning(s, id);
            next.running.Keys == s.running.Keys && next.completed == s.completed && next.failed == s.failed
  {
  }

  /** Call j starts the id, and no call after it and before k completes or fails it. */
  ghost predicate RunsSince(ops: seq<Op>, j: nat, k: nat, id: TaskId) {
    j < k <= |ops| && Starts(ops[j], id) && forall m {:trigger ops[m]} :: j < m < k ==> ops[m] != OpComplete(id) && ops[m] != OpFail(id)
  }

  /** Over any run an id is running exactly when a pass started it and nothing has completed or failed it
      since. */
  lemma {:induction false} RunningIff(states: seq<State>, ops: seq<Op>, k: nat, id: TaskId)
    requires IsRun(states, ops) && k <= |ops|
    ensures id in states[k].running <==> exists j: nat :: RunsSince(ops, j, k, id)
  {
    if k > 0 {
      RunningIff(states, ops, k - 1, id);
      assert StepAt(states, ops, k - 1);
      RunningStep(states[k - 1], ops[k - 1], states[k], id);
      if Starts(ops[k - 1], id) {
        assert RunsSince(ops, k - 1, k, id);
      }
      var before := k - 1;
      if j: nat :| RunsSince(ops, j, before, id) {
        assert ops[k - 1] != OpComplete(id) && ops[k - 1] != OpFail(id) ==> RunsSince(ops, j, k, id);
      }
      if j: nat :| RunsSince(ops, j, k, id) {
        assert j < k - 1 ==> RunsSince(ops, j, k - 1, id);
      }
    }
  }

  // ---------------------------------------------------------------------------------------------
  // Statuses and devices
  // ---------------------------------------------------------------------------------------------

  /** Each container holds tasks of its own statuses. */
  ghost predicate StatusesAgree(s: State) {
    && (forall t :: t in s.pending ==> t.status == Queued)
    && (forall id :: id in s.running ==> s.running[id].status in {Scheduled, Running, Cancelled})
    && (forall id :: id in s.completed ==> s.completed[id].status == Completed && s.completed[id].device == None)
    && (forall id :: id in s.failed ==> s.failed[id].status in {Failed, Cancelled})
  }

  lemma {:induction false} PassStatuses(p: Pass, i: nat)
    requires IsStart(p) && StatusesAgree(p.states[0]) && i < |p.states|
    ensures StatusesAgree(p.states[i])
  {
    if i > 0 {
      PassStatuses(p, i - 1);
      var g := Turn(p, i - 1);
    }
  }

  lemma StatusesStep(s: State, op: Op, next: State)
    requires Steps(s, op, next) && StatusesAgree(s)
    ensures StatusesAgree(next)
  {
    match op {
      case OpSubmit(task) => SubmitStatuses(s, task);
      case OpCancel(id) => CancelStatuses(s, id, next);
      case OpRunning(id) => MarkStatuses(s, id);
      case OpComplete(id) => CompleteStatuses(s, id);
      case OpFail(id) => FailStatuses(s, id);
      case OpSchedule(pass) => PassStatuses(pass, |pass.started|);
      case OpMeasure(device, availableMemoryMb) =>
      case OpQuota(user, quota) =>
    }
  }

  lemma SubmitStatuses(s: State, t: Task)
    requires StatusesAgree(s)
    ensures StatusesAgree(Submit(s, t))
  {
  }

  lemma CancelStatuses(s: State, id: TaskId, next: State)
    requires StatusesAgree(s) && Cancels(s, id, next)
    ensures StatusesAgree(next)
  {
    if Waits(s, id) {
      var t :| t in s.pending && t.id == id && next == CancelPending(s, t);
      CancelPendingStatuses(s, t);
    }
  }

  lemma CancelPendingStatuses(s: State, t: Task)
    requires StatusesAgree(s)
    ensures StatusesAgree(CancelPending(s, t))
  {
  }

  lemma MarkStatuses(s: State, id: TaskId)
    requires StatusesAgree(s)
    ensures StatusesAgree(MarkRunning(s, id))
  {
  }

  lemma CompleteStatuses(s: State, id: TaskId)
    requires StatusesAgree(s)
    ensures StatusesAgree(Complete(s, id))
  {
  }

  lemma FailStatuses(s: State, id: TaskId)
    requires StatusesAgree(s)
    ensures StatusesAgree(Fail(s, id))
  {
  }

  /** Over any run the statuses agree with the containers. */
  lemma {:induction false} RunStatuses(states: seq<State>, ops: seq<Op>, k: nat)
    requires IsRun(states, ops) && k <= |ops|
    ensures StatusesAgree(states[k])
  {
    if k > 0 {
      RunStatuses(states, ops, k - 1);
      assert StepAt(states, ops, k - 1);
      StatusesStep(states[k - 1], ops[k - 1], states[k]);
    }
  }

  lemma FailedAs(s: State, op: Op, next: State, id: TaskId)
    requires Steps(s, op, next)
    ensures op == OpFail(id) && id in s.running ==> id in next.failed && next.failed[id].status == Failed
    ensures op == OpCancel(id) && (exists t :: t in s.pending && t.id == id) ==>
              id in next.failed && next.failed[id].status == Cancelled
    ensures id in s.failed && !(op == OpFail(id) && id in s.running)
            && !(op == OpCancel(id) && exists t :: t in s.pending && t.id == id) ==>
              id in next.failed && next.failed[id] == s.failed[id]
  {
    match op {
      case OpCancel(other) => CancelledAs(s, other, next, id);
      case OpSchedule(pass) => PassLeaves(pass, |pass.started|);
      case _ =>
    }
  }

  lemma CancelledAs(s: State, other: TaskId, next: State, id: TaskId)
    requires Cancels(s, other, next)
    ensures Waits(s, id) && other == id ==> id in next.failed && next.failed[id].status == Cancelled
    ensures id in s.failed && !(Waits(s, id) && other == id) ==>
              id in next.failed && next.failed[id] == s.failed[id]
  {
    if Waits(s, other) {
      var t :| t in s.pending && t.id == other && next == CancelPending(s, t);
    }
  }

  /** The last call that failed an id decides: a failure leaves it marked failed, a cancellation cancelled. */
  lemma {:induction false} FailedStatus(states: seq<State>, ops: seq<Op>, j: nat, k: nat, id: TaskId)
    requires IsRun(states, ops) && j < k <= |ops| && FailedBy(states, ops, j, id)
    requires forall m {:trigger FailedBy(states, ops, m, id)} :: j < m < k ==> !FailedBy(states, ops, m, id)
    ensures id in states[k].failed
    ensures states[k].failed[id].status == if ops[j].OpFail? then Failed else Cancelled
  {
    assert StepAt(states, ops, k - 1);
    FailedAs(states[k - 1], ops[k - 1], states[k], id);
    if j < k - 1 {
      FailedStatus(states, ops, j, k - 1, id);
      assert !FailedBy(states, ops, k - 1, id);
    }
  }

  predicate Usable(s: State, g: int, memoryMb: int, gpuType: string) {
    && g in s.devices && s.devices[g].state == DeviceIdle && s.devices[g].availableMemoryMb >= memoryMb
    && (gpuType == "" || s.devices[g].gpuType == gpuType)
  }

  /** Place k of the insertion order is the first with a usable device. */
  predicate FirstUsable(s: State, k: nat, memoryMb: int, gpuType: string) {
    && k < |s.order| && Usable(s, s.order[k], memoryMb, gpuType)
    && forall i :: 0 <= i < k ==> !Usable(s, s.order[i], memoryMb, gpuType)
  }

  predicate NoneUsable(s: State, memoryMb: int, gpuType: string) {
    forall i :: 0 <= i < |s.order| ==> !Usable(s, s.order[i], memoryMb, gpuType)
  }

  lemma {:induction false} FitMeaning(s: State, order: seq<int>, memoryMb: int, gpuType: string)
    ensures var r, t := FirstFit(order, s.devices, memoryMb, gpuType), s.(order := order);
            if r.None? then NoneUsable(t, memoryMb, gpuType)
            else exists k: nat :: FirstUsable(t, k, memoryMb, gpuType) && r == Some(order[k])
  {
    if order != [] {
      var rest := order[1..];
      FitMeaning(s, rest, memoryMb, gpuType);
      var t, u := s.(order := order), s.(order := rest);
      if Usable(t, order[0], memoryMb, gpuType) {
        assert FirstUsable(t, 0, memoryMb, gpuType);
      } else if FirstFit(rest, s.devices, memoryMb, gpuType).Some? {
        var k: nat :| FirstUsable(u, k, memoryMb, gpuType) && FirstFit(rest, s.devices, memoryMb, gpuType) == Some(rest[k]);
        LaterUsable(t, u, k, memoryMb, gpuType);
      } else {
        forall i | 0 <= i < |order| ensures !Usable(t, order[i], memoryMb, gpuType) {
          assert i > 0 ==> order[i] == rest[i - 1] && !Usable(u, rest[i - 1], memoryMb, gpuType);
        }
      }
    }
  }

  lemma LaterUsable(t: State, u: State, k: nat, memoryMb: int, gpuType: string)
    requires t.order != [] && u == t.(order := t.order[1..]) && FirstUsable(u, k, memoryMb, gpuType)
    requires !Usable(t, t.order[0], memoryMb, gpuType)
    ensures FirstUsable(t, k + 1, memoryMb, gpuType) && t.order[k + 1] == u.order[k]
  {
    forall i | 0 <= i < k + 1 ensures !Usable(t, t.order[i], memoryMb, gpuType) {
      assert i > 0 ==> t.order[i] == u.order[i - 1] && !Usable(u, u.order[i - 1], memoryMb, gpuType);
    }
  }

  /** The device picked for a task is the first idle one of its type with enough memory; only if there is none
      and the task allows it, the first idle CPU; and none only if there is neither. */
  lemma PickMeaning(s: State, t: Task)
    ensures var r := PickDevice(s, t);
            if r.None? then NoneUsable(s, t.memoryMb, t.gpuType) && (t.allowFallbackCpu ==> NoneUsable(s, 0, "cpu"))
            else
              || (exists k: nat :: FirstUsable(s, k, t.memoryMb, t.gpuType) && r == Some(s.order[k]))
              || (&& NoneUsable(s, t.memoryMb, t.gpuType) && t.allowFallbackCpu
                  && exists k: nat :: FirstUsable(s, k, 0, "cpu") && r == Some(s.order[k]))
  {
    assert s.(order := s.order) == s;
    FitMeaning(s, s.order, t.memoryMb, t.gpuType);
    FitMeaning(s, s.order, 0, "cpu");
  }

  /** The device is of the type the task asks for, or a CPU the task allows. */
  predicate RightType(t: Task, d: Device) {
    t.gpuType == "" || d.gpuType == t.gpuType || (t.allowFallbackCpu && d.gpuType == "cpu")
  }

  ghost predicate RightDevice(s: State, id: TaskId)
    requires id in s.running
  {
    var t := s.running[id];
    t.device.Some? ==> t.device.value in s.devices && RightType(t, s.devices[t.device.value])
  }

  ghost predicate RightDevices(s: State) {
    forall id :: id in s.running ==> RightDevice(s, id)
  }

  /** No device changes its type. */
  predicate SameTypes(s: State, next: State) {
    next.devices.Keys == s.devices.Keys && forall g :: g in s.devices ==> next.devices[g].gpuType == s.devices[g].gpuType
  }

  lemma StartRight(s: State, t: Task, g: int)
    requires PickDevice(s, t) == Some(g) && RightDevices(s)
    ensures RightDevices(StartOne(s, t, g)) && SameTypes(s, StartOne(s, t, g))
  {
    PickMeaning(s, t);
    var next := StartOne(s, t, g);
    forall id | id in next.running ensures RightDevice(next, id) {
      assert id != t.id ==> RightDevice(s, id);
    }
  }

  lemma {:induction false} PassRight(p: Pass, i: nat)
    requires IsStart(p) && RightDevices(p.states[0]) && i < |p.states|
    ensures RightDevices(p.states[i])
  {
    if i > 0 {
      PassRight(p, i - 1);
      var g := Turn(p, i - 1);
      StartRight(p.states[i - 1], p.started[i - 1], g);
    }
  }

  lemma KeptRight(s: State, next: State)
    requires RightDevices(s) && SameTypes(s, next)
    requires forall id :: id in next.running ==>
               id in s.running && next.running[id].gpuType == s.running[id].gpuType
               && next.running[id].allowFallbackCpu == s.running[id].allowFallbackCpu
               && (next.running[id].device == s.running[id].device || next.running[id].device == None)
    ensures RightDevices(next)
  {
    forall id | id in next.running ensures RightDevice(next, id) {
      assert RightDevice(s, id);
      if next.running[id].device.Some? {
        var g := next.running[id].device.value;
        assert next.running[id].device == s.running[id].device;
        assert g in s.devices;
        assert g in next.devices;
        assert next.devices[g].gpuType == s.devices[g].gpuType;
      }
    }
  }

  lemma RightStep(s: State, op: Op, next: State)
    requires Steps(s, op, next) && RightDevices(s)
    ensures RightDevices(next)
  {
    match op {
      case OpCancel(id) => CancelRight(s, id, next);
      case OpRunning(id) => MarkRight(s, id);
      case OpComplete(id) => CompleteRight(s, id);
      case OpFail(id) => FailRight(s, id);
      case OpSchedule(pass) => PassRight(pass, |pass.started|);
      case OpMeasure(device, availableMemoryMb) => MeasureRight(s, device, availableMemoryMb);
      case _ => SameRunningRight(s, next);
    }
  }

  lemma SameRunningRight(s: State, next: State)
    requires RightDevices(s) && next.running == s.running && next.devices == s.devices
    ensures RightDevices(next)
  {
    KeptRight(s, next);
  }

  lemma MarkRight(s: State, id: TaskId)
    requires RightDevices(s)
    ensures RightDevices(MarkRunning(s, id))
  {
    var next := MarkRunning(s, id);
    forall other | other in next.running
      ensures other in s.running && next.running[other] == s.running[other].(status := next.running[other].status)
    {
    }
    KeptRight(s, next);
  }

  lemma CompleteRight(s: State, id: TaskId)
    requires RightDevices(s)
    ensures RightDevices(Complete(s, id))
  {
    KeptRight(s, Complete(s, id));
  }

  lemma FailRight(s: State, id: TaskId)
    requires RightDevices(s)
    ensures RightDevices(Fail(s, id))
  {
    KeptRight(s, Fail(s, id));
  }

  lemma MeasureRight(s: State, g: int, availableMemoryMb: int)
    requires RightDevices(s)
    ensures RightDevices(Measure(s, g, availableMemoryMb))
  {
    KeptRight(s, Measure(s, g, availableMemoryMb));
  }

  lemma CancelRunningRight(s: State, id: TaskId)
    requires RightDevices(s) && id in s.running
    ensures RightDevices(CancelRunning(s, id))
  {
    KeptRight(s, CancelRunning(s, id));
  }

  lemma CancelRight(s: State, id: TaskId, next: State)
    requires Cancels(s, id, next) && RightDevices(s)
    ensures RightDevices(next)
  {
    if Waits(s, id) {
      var t :| t in s.pending && t.id == id && next == CancelPending(s, t);
      SameRunningRight(s, next);
    } else if id in s.running {
      CancelRunningRight(s, id);
    }
  }

  /** Over any run every running task that names a device names one of the type it asks for, or a CPU if it
      allows that. */
  lemma {:induction false} RunRightDevices(states: seq<State>, ops: seq<Op>, k: nat)
    requires IsRun(states, ops) && k <= |ops|
    ensures RightDevices(states[k])
  {
    if k > 0 {
      RunRightDevices(states, ops, k - 1);
      assert StepAt(states, ops, k - 1);
      RightStep(states[k - 1], ops[k - 1], states[k]);
    }
  }

  /** What a call may change of a device besides who has it: its free memory, when it is measured while
      allocated. */
  ghost predicate MeasuredBy(s: State, op: Op, next: State, g: int)
    requires g in s.devices
  {
    && g in next.devices && next.devices[g].gpuType == s.devices[g].gpuType
    && next.devices[g].availableMemoryMb ==
       if op.OpMeasure? && op.device == g && s.devices[g].state == DeviceAllocated
       then op.availableMemoryMb else s.devices[g].availableMemoryMb
  }

  lemma {:induction false} PassMeasures(p: Pass, i: nat, g: int)
    requires IsStart(p) && i < |p.states| && g in p.states[0].devices
    ensures g in p.states[i].devices
    ensures p.states[i].devices[g].gpuType == p.states[0].devices[g].gpuType
    ensures p.states[i].devices[g].availableMemoryMb == p.states[0].devices[g].availableMemoryMb
  {
    if i > 0 {
      PassMeasures(p, i - 1, g);
      var h := Turn(p, i - 1);
    }
  }

  /** No call adds or loses a device or changes its type, and only a measurement of an allocated device changes
      its free memory. */
  lemma DevicesStay(s: State, op: Op, next: State, g: int)
    requires Steps(s, op, next) && g in s.devices
    ensures MeasuredBy(s, op, next, g)
  {
    match op {
      case OpCancel(id) => CancelMeasures(s, id, next, g);
      case OpSchedule(pass) => PassMeasures(pass, |pass.started|, g);
      case _ =>
    }
  }

  lemma CancelMeasures(s: State, id: TaskId, next: State, g: int)
    requires Cancels(s, id, next) && g in s.devices
    ensures g in next.devices && next.devices[g].gpuType == s.devices[g].gpuType
    ensures next.devices[g].availableMemoryMb == s.devices[g].availableMemoryMb
  {
    if Waits(s, id) {
      var t :| t in s.pending && t.id == id && next == CancelPending(s, t);
    }
  }

  /** A pass leaves nothing it could start: it used up the slots that were free, or the queue is empty, or no
      device can be used for a task that nothing waiting goes ahead of. */
  lemma PassIsBusy(p: Pass)
    requires IsPass(p)
    ensures var s, last := p.states[0], Final(p);
            || |p.started| >= s.maxConcurrent - |s.running|
            || last.pending == multiset{}
            || exists t :: t in last.pending && (forall u :: u in last.pending ==> !KeyLess(u, t))
                           && NoneUsable(last, t.memoryMb, t.gpuType)
                           && (t.allowFallbackCpu ==> NoneUsable(last, 0, "cpu"))
  {
    if t :| IsHead(Final(p).pending, t) && PickDevice(Final(p), t).None? {
      PickMeaning(Final(p), t);
      assert t in Final(p).pending && forall u :: u in Final(p).pending ==> !KeyLess(u, t);
    }
  }

  // ---------------------------------------------------------------------------------------------
  // No task is altered
  // ---------------------------------------------------------------------------------------------

  /** The same task, whatever has become of it. */
  predicate SameTask(t: Task, u: Task) {
    t == u.(status := t.status, device := t.device)
  }

  ghost predicate Holds(s: State, t: Task) {
    || t in s.pending
    || (exists id :: id in s.running && s.running[id] == t)
    || (exists id :: id in s.completed && s.completed[id] == t)
    || (exists id :: id in s.failed && s.failed[id] == t)
  }

  /** Every task of the next state was there, or was just submitted. */
  ghost predicate StemsFrom(s: State, next: State, op: Op, t: Task) {
    || (exists u :: Holds(s, u) && SameTask(t, u))
    || (op.OpSubmit? && SameTask(t, op.task))
  }

  lemma StartStems(s: State, t: Task, g: int, x: Task)
    requires t in s.pending && Holds(StartOne(s, t, g), x)
    ensures exists u :: Holds(s, u) && SameTask(x, u)
  {
    var next := StartOne(s, t, g);
    if x !in next.pending && exists id :: id in next.running && next.running[id] == x {
      var id :| id in next.running && next.running[id] == x;
      assert Holds(s, if id == t.id then t else x);
    } else {
      assert Holds(s, x);
    }
  }

  lemma {:induction false} PassStems(p: Pass, i: nat, t: Task)
    requires IsStart(p) && i < |p.states| && Holds(p.states[i], t)
    ensures exists u :: Holds(p.states[0], u) && SameTask(t, u)
  {
    if i > 0 {
      var u := TurnStems(p, i - 1, t);
      PassStems(p, i - 1, u);
      var v :| Holds(p.states[0], v) && SameTask(u, v);
      assert SameTask(t, v);
    } else {
      assert SameTask(t, t);
    }
  }

  lemma TurnStems(p: Pass, i: nat, t: Task) returns (u: Task)
    requires IsStart(p) && i < |p.started| && Holds(p.states[i + 1], t)
    ensures Holds(p.states[i], u) && SameTask(t, u)
  {
    var g := Turn(p, i);
    StartStems(p.states[i], p.started[i], g, t);
    u :| Holds(p.states[i], u) && SameTask(t, u);
  }

  lemma StemsStep(s: State, op: Op, next: State, t: Task)
    requires Steps(s, op, next) && Holds(next, t)
    ensures StemsFrom(s, next, op, t)
  {
    match op {
      case OpSubmit(task) => SubmitStems(s, task, t);
      case OpCancel(id) => CancelStems(s, id, next, t);
      case OpRunning(id) => MarkStems(s, id, t);
      case OpComplete(id) => CompleteStems(s, id, t);
      case OpFail(id) => FailStems(s, id, t);
      case OpSchedule(pass) => PassStems(pass, |pass.started|, t);
      case _ => assert Holds(s, t) && SameTask(t, t);
    }
  }

  lemma SubmitStems(s: State, task: Task, t: Task)
    requires Holds(Submit(s, task), t)
    ensures (exists u :: Holds(s, u) && SameTask(t, u)) || SameTask(t, task)
  {
    assert SameTask(t, t);
    if t in Submit(s, task).pending && t !in s.pending {
      assert t == task.(status := Queued);
    } else {
      assert Holds(s, t);
    }
  }

  lemma CancelStems(s: State, id: TaskId, next: State, t: Task)
    requires Cancels(s, id, next) && Holds(next, t)
    ensures exists u :: Holds(s, u) && SameTask(t, u)
  {
    if Waits(s, id) {
      var w :| w in s.pending && w.id == id && next == CancelPending(s, w);
      CancelPendingStems(s, w, t);
    } else if id in s.running {
      CancelRunningStems(s, id, t);
    } else {
      assert SameTask(t, t);
    }
  }

  lemma CancelPendingStems(s: State, w: Task, t: Task)
    requires w in s.pending && Holds(CancelPending(s, w), t)
    ensures exists u :: Holds(s, u) && SameTask(t, u)
  {
    assert SameTask(t, t);
    if !Holds(s, t) {
      assert Holds(s, w) && SameTask(t, w);
    }
  }

  lemma CancelRunningStems(s: State, id: TaskId, t: Task)
    requires id in s.running && Holds(CancelRunning(s, id), t)
    ensures exists u :: Holds(s, u) && SameTask(t, u)
  {
    assert SameTask(t, t);
    if !Holds(s, t) {
      assert Holds(s, s.running[id]) && SameTask(t, s.running[id]);
    }
  }

  lemma MarkStems(s: State, id: TaskId, t: Task)
    requires Holds(MarkRunning(s, id), t)
    ensures exists u :: Holds(s, u) && SameTask(t, u)
  {
    assert SameTask(t, t);
    if !Holds(s, t) {
      assert Holds(s, s.running[id]) && SameTask(t, s.running[id]);
    }
  }

  lemma CompleteStems(s: State, id: TaskId, t: Task)
    requires Holds(Complete(s, id), t)
    ensures exists u :: Holds(s, u) && SameTask(t, u)
  {
    assert SameTask(t, t);
    if !Holds(s, t) {
      assert Holds(s, s.running[id]) && SameTask(t, s.running[id]);
    }
  }

  lemma FailStems(s: State, id: TaskId, t: Task)
    requires Holds(Fail(s, id), t)
    ensures exists u :: Holds(s, u) && SameTask(t, u)
  {
    assert SameTask(t, t);
    if !Holds(s, t) {
      assert Holds(s, s.running[id]) && SameTask(t, s.running[id]);
    }
  }

  /** Over any run every task held anywhere is, but for status and device, one that was submitted. */
  lemma {:induction false} OnlySubmitted(states: seq<State>, ops: seq<Op>, k: nat, t: Task)
    requires IsRun(states, ops) && k <= |ops| && Holds(states[k], t)
    ensures exists j :: 0 <= j < k && ops[j].OpSubmit? && SameTask(t, ops[j].task)
  {
    if k > 0 {
      assert StepAt(states, ops, k - 1);
      StemsStep(states[k - 1], ops[k - 1], states[k], t);
      if u :| Holds(states[k - 1], u) && SameTask(t, u) {
        OnlySubmitted(states, ops, k - 1, u);
      }
    }
  }

  // ---------------------------------------------------------------------------------------------
  // The quota
  // ---------------------------------------------------------------------------------------------

  /** Tasks without a user count for the user "default". */
  predicate IsFor(t: Task, user: UserId) {
    user == if t.user == "" then "default" else t.user
  }

  /** How many submissions of the user the first k calls let in: those that entered the queue. */
  ghost function LetIn(states: seq<State>, ops: seq<Op>, k: nat, user: UserId): nat
    requires k <= |ops| && k < |states|
  {
    if k == 0 then 0
    else LetIn(states, ops, k - 1, user)
         + if ops[k - 1].OpSubmit? && IsFor(ops[k - 1].task, user) && states[k].pending != states[k - 1].pending
           then 1 else 0
  }

  lemma SubmittedStep(s: State, op: Op, next: State, user: UserId)
    requires Steps(s, op, next)
    ensures SubmittedBy(next, user) ==
            SubmittedBy(s, user)
            + if op.OpSubmit? && IsFor(op.task, user) && next.pending != s.pending then 1 else 0
  {
    match op {
      case OpSubmit(task) => SubmitCounts(s, task, user);
      case OpCancel(id) => CancelSubmitted(s, id, next);
      case OpSchedule(pass) => PassLeaves(pass, |pass.started|);
      case _ =>
    }
  }

  lemma SubmitCounts(s: State, t: Task, user: UserId)
    ensures SubmittedBy(Submit(s, t), user) ==
            SubmittedBy(s, user) + if IsFor(t, user) && Submit(s, t).pending != s.pending then 1 else 0
  {
    if WithinQuota(s, t) {
      assert Submit(s, t).pending[t.(status := Queued)] == s.pending[t.(status := Queued)] + 1;
    }
  }

  lemma CancelSubmitted(s: State, id: TaskId, next: State)
    requires Cancels(s, id, next)
    ensures next.submitted == s.submitted
  {
    if Waits(s, id) {
      var t :| t in s.pending && t.id == id && next == CancelPending(s, t);
    }
  }

  /** The usage counter of a user counts the submissions let in. */
  lemma {:induction false} UsageCounts(states: seq<State>, ops: seq<Op>, k: nat, user: UserId)
    requires IsRun(states, ops) && k <= |ops|
    ensures SubmittedBy(states[k], user) == SubmittedBy(states[0], user) + LetIn(states, ops, k, user)
  {
    if k > 0 {
      UsageCounts(states, ops, k - 1, user);
      assert StepAt(states, ops, k - 1);
      SubmittedStep(states[k - 1], ops[k - 1], states[k], user);
    }
  }

  /** The last quota set for the user, 100 tasks and 24 hours if none was ever set. */
  ghost predicate QuotaIs(states: seq<State>, ops: seq<Op>, k: nat, user: UserId, q: Quota)
    requires k <= |ops| && states != []
  {
    if k == 0 then q == if user in states[0].quotas then states[0].quotas[user] else Quota(100, 24.0)
    else if ops[k - 1].OpQuota? && ops[k - 1].user == user then q == ops[k - 1].quota
    else QuotaIs(states, ops, k - 1, user, q)
  }

  lemma {:induction false} QuotaKept(states: seq<State>, ops: seq<Op>, k: nat, user: UserId)
    requires IsRun(states, ops) && k <= |ops|
    ensures QuotaIs(states, ops, k, user, QuotaOf(states[k], user))
  {
    if k > 0 {
      QuotaKept(states, ops, k - 1, user);
      assert StepAt(states, ops, k - 1);
      if ops[k - 1].OpSchedule? {
        PassLeaves(ops[k - 1].pass, |ops[k - 1].pass.started|);
      }
    }
  }

  /** Over any run a submission enters the queue, marked as queued, exactly when fewer submissions of its user
      than the last quota allows were let in before and the quota leaves any hours; otherwise nothing changes. */
  lemma QuotaDecides(states: seq<State>, ops: seq<Op>, k: nat, user: UserId, q: Quota)
    requires IsRun(states, ops) && k < |ops| && ops[k].OpSubmit? && IsFor(ops[k].task, user)
    requires q == QuotaOf(states[k], user)
    ensures QuotaIs(states, ops, k, user, q)
    ensures var task := ops[k].task;
            if SubmittedBy(states[0], user) + LetIn(states, ops, k, user) < q.maxTasks && q.maxGpuHours > 0.0
            then states[k + 1].pending == states[k].pending + multiset{task.(status := Queued)}
            else states[k + 1] == states[k]
  {
    QuotaKept(states, ops, k, user);
    UsageCounts(states, ops, k, user);
    assert StepAt(states, ops, k);
  }
}
