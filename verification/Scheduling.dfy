/** The in-process GPU scheduler as values (core/scheduler.py with core/gpu_manager.py, local devices):
    what each call does to the containers, the counters and the devices, and what every run keeps. */
module Scheduling {
  import opened Hashing
  import opened Sequences

  type TaskId = string
  type UserId = string

  datatype DeviceState = DeviceIdle | DeviceAllocated | OtherDeviceState(name: string)

  datatype Device = Device(gpuType: string, availableMemoryMb: int, state: DeviceState,
                           currentTask: Option<TaskId>)
  {
    predicate CanAllocate(requiredMemoryMb: int) {
      state == DeviceIdle && availableMemoryMb >= requiredMemoryMb
    }

    function Allocate(task: TaskId): Device {
      if state != DeviceIdle then this else this.(state := DeviceAllocated, currentTask := Some(task))
    }

    function Release(): Device {
      this.(state := DeviceIdle, currentTask := None)
    }
  }

  datatype Status = Created | Queued | Scheduled | Running | Completed | Failed | Cancelled

  /** An empty gpuType asks for any device. */
  datatype Task = Task(id: TaskId, user: UserId, priority: int, createdAt: real, memoryMb: int,
                       gpuType: string, allowFallbackCpu: bool, status: Status, device: Option<int>)

  datatype Stats = Stats(total: int, pending: int, running: int, completed: int, failed: int)

  datatype Quota = Quota(maxTasks: int, maxGpuHours: real)

  const DEFAULT_QUOTA := Quota(100, 24.0)

  /** The devices by id and their ids in insertion order, the queue without its heap arrangement, and
      the rest of the scheduler's fields. */
  datatype State = State(order: seq<int>, devices: map<int, Device>, maxConcurrent: int,
                         pending: multiset<Task>, running: map<TaskId, Task>,
                         completed: map<TaskId, Task>, failed: map<TaskId, Task>,
                         stats: Stats, quotas: map<UserId, Quota>, submitted: map<UserId, int>)

  // ---------------------------------------------------------------------------------------------
  // The order of the queue
  // ---------------------------------------------------------------------------------------------

  const SPREAD := 1000000000.0

  function PriorityValue(t: Task): real {
    (6 - t.priority) as real * SPREAD + t.createdAt
  }

  predicate KeyLess(x: Task, y: Task) {
    || PriorityValue(x) < PriorityValue(y)
    || (PriorityValue(x) == PriorityValue(y) && x.createdAt < y.createdAt)
  }

  predicate KeyLeq(x: Task, y: Task) {
    !KeyLess(y, x)
  }

  /** Higher priority first, then earlier creation. */
  predicate Before(x: Task, y: Task) {
    x.priority > y.priority || (x.priority == y.priority && x.createdAt < y.createdAt)
  }

  /** A task goes ahead of one that is some priority levels lower exactly when it was created less than
      that many times 1,000,000,000 seconds later; between equals the earlier goes first. */
  lemma KeyOrder(x: Task, y: Task)
    ensures x.priority > y.priority ==>
              (KeyLess(x, y) <==> x.createdAt - y.createdAt < (x.priority - y.priority) as real * SPREAD)
    ensures x.priority == y.priority ==> (KeyLess(x, y) <==> x.createdAt < y.createdAt)
  {
  }

  ghost predicate CloseInTime(x: Task, y: Task) {
    -SPREAD < x.createdAt - y.createdAt < SPREAD
  }

  /** Key order is priority, then creation time, for tasks created within 1,000,000,000 seconds. */
  lemma KeyOrderIsPriority(x: Task, y: Task)
    requires CloseInTime(x, y)
    ensures KeyLess(x, y) <==> Before(x, y)
  {
    if x.priority > y.priority {
      assert (x.priority - y.priority) as real >= 1.0;
    } else if x.priority < y.priority {
      assert (y.priority - x.priority) as real >= 1.0;
      KeyOrder(y, x);
    }
  }

  /** At exactly 1,000,000,000 seconds the older task of the next lower priority goes first. */
  lemma KeyOrderAtSpread(x: Task, y: Task)
    requires x.priority == y.priority + 1 && x.createdAt == y.createdAt + SPREAD
    ensures Before(x, y) && KeyLess(y, x)
  {
  }

  // ---------------------------------------------------------------------------------------------
  // Devices
  // ---------------------------------------------------------------------------------------------

  predicate Suits(d: Device, requiredMemoryMb: int, gpuType: string) {
    (gpuType == "" || d.gpuType == gpuType) && d.CanAllocate(requiredMemoryMb)
  }

  /** The first device, in insertion order, that suits. */
  function FirstFit(order: seq<int>, devices: map<int, Device>, requiredMemoryMb: int, gpuType: string)
    : (r: Option<int>)
    ensures r.Some? ==> r.value in order && r.value in devices
                        && Suits(devices[r.value], requiredMemoryMb, gpuType)
  {
    if order == [] then None
    else if order[0] in devices && Suits(devices[order[0]], requiredMemoryMb, gpuType) then Some(order[0])
    else FirstFit(order[1..], devices, requiredMemoryMb, gpuType)
  }

  /** No device is picked only when none suits; the one picked has no suitable one before it. */
  lemma {:induction false} FirstFitMeaning(order: seq<int>, devices: map<int, Device>, requiredMemoryMb: int,
                                           gpuType: string, k: nat)
    requires k < |order| && order[k] in devices && Suits(devices[order[k]], requiredMemoryMb, gpuType)
    ensures var r := FirstFit(order, devices, requiredMemoryMb, gpuType);
            r.Some? && exists j :: 0 <= j <= k && order[j] == r.value
  {
    if order[0] in devices && Suits(devices[order[0]], requiredMemoryMb, gpuType) {
      assert order[0] == FirstFit(order, devices, requiredMemoryMb, gpuType).value;
    } else {
      FirstFitMeaning(order[1..], devices, requiredMemoryMb, gpuType, k - 1);
      var j :| 0 <= j <= k - 1 && order[1..][j] == FirstFit(order, devices, requiredMemoryMb, gpuType).value;
      assert order[j + 1] == order[1..][j];
    }
  }

  function PickDevice(s: State, t: Task): (r: Option<int>)
    ensures r.Some? ==> r.value in s.devices && s.devices[r.value].state == DeviceIdle
  {
    var fit := FirstFit(s.order, s.devices, t.memoryMb, t.gpuType);
    if fit.None? && t.allowFallbackCpu then FirstFit(s.order, s.devices, 0, "cpu") else fit
  }

  /** allocate_device; when it refuses, its result is ignored. */
  function AllocateIn(devices: map<int, Device>, g: int, task: TaskId): map<int, Device> {
    if g in devices && devices[g].CanAllocate(0) then devices[g := devices[g].Allocate(task)] else devices
  }

  function ReleaseIn(devices: map<int, Device>, g: Option<int>): map<int, Device> {
    if g.Some? && g.value in devices then devices[g.value := devices[g.value].Release()] else devices
  }

  // ---------------------------------------------------------------------------------------------
  // Calls
  // ---------------------------------------------------------------------------------------------

  function QuotaOf(s: State, user: UserId): Quota {
    if user in s.quotas then s.quotas[user] else DEFAULT_QUOTA
  }

  function SubmittedBy(s: State, user: UserId): int {
    if user in s.submitted then s.submitted[user] else 0
  }

  function UserOf(t: Task): UserId {
    if t.user == "" then "default" else t.user
  }

  /** Nothing here ever counts GPU seconds, so only the sign of the hour limit matters. */
  predicate WithinQuota(s: State, t: Task) {
    && SubmittedBy(s, UserOf(t)) < QuotaOf(s, UserOf(t)).maxTasks
    && 0.0 < QuotaOf(s, UserOf(t)).maxGpuHours * 3600.0
  }

  function Submit(s: State, t: Task): State {
    if !WithinQuota(s, t) then s
    else
      s.(pending := s.pending + multiset{t.(status := Queued)},
         stats := s.stats.(pending := s.stats.pending + 1, total := s.stats.total + 1),
         submitted := s.submitted[UserOf(t) := SubmittedBy(s, UserOf(t)) + 1])
  }

  ghost predicate Waits(s: State, id: TaskId) {
    exists t :: t in s.pending && t.id == id
  }

  function CancelPending(s: State, t: Task): State {
    s.(pending := s.pending - multiset{t},
       failed := s.failed[t.id := t.(status := Cancelled)],
       stats := s.stats.(pending := s.stats.pending - 1, failed := s.stats.failed + 1))
  }

  /** A cancelled running task gives its device back but stays among the running tasks. */
  function CancelRunning(s: State, id: TaskId): State
    requires id in s.running
  {
    var t := s.running[id];
    s.(running := s.running[id := t.(status := Cancelled, device := None)],
       devices := ReleaseIn(s.devices, t.device))
  }

  /** What cancel_task makes of the state: the first waiting task with the id is cancelled, else the
      running one, else nothing. */
  ghost predicate Cancels(s: State, id: TaskId, next: State) {
    if Waits(s, id) then exists t :: t in s.pending && t.id == id && next == CancelPending(s, t)
    else if id in s.running then next == CancelRunning(s, id)
    else next == s
  }

  function MarkRunning(s: State, id: TaskId): State {
    if id !in s.running then s
    else s.(running := s.running[id := s.running[id].(status := Running)])
  }

  function Complete(s: State, id: TaskId): State {
    if id !in s.running then s
    else
      var t := s.running[id];
      s.(running := s.running - {id},
         completed := s.completed[id := t.(status := Completed, device := None)],
         devices := ReleaseIn(s.devices, t.device),
         stats := s.stats.(running := s.stats.running - 1, completed := s.stats.completed + 1))
  }

  function Fail(s: State, id: TaskId): State {
    if id !in s.running then s
    else
      var t := s.running[id];
      s.(running := s.running - {id},
         failed := s.failed[id := t.(status := Failed, device := None)],
         devices := ReleaseIn(s.devices, t.device),
         stats := s.stats.(running := s.stats.running - 1, failed := s.stats.failed + 1))
  }

  /** One turn of the scheduling loop that found device g for the head of the queue. */
  function StartOne(s: State, t: Task, g: int): State {
    s.(pending := s.pending - multiset{t},
       devices := AllocateIn(s.devices, g, t.id),
       running := s.running[t.id := t.(status := Scheduled, device := Some(g))],
       stats := s.stats.(pending := s.stats.pending - 1, running := s.stats.running + 1))
  }

  /** No waiting task has a smaller key. */
  ghost predicate IsHead(pending: multiset<Task>, t: Task) {
    t in pending && forall u :: u in pending ==> KeyLeq(t, u)
  }

  /** The head of the queue t gets a device. */
  ghost predicate CanStart(s: State, t: Task) {
    IsHead(s.pending, t) && PickDevice(s, t).Some?
  }

  function StartNext(s: State, t: Task): State {
    if PickDevice(s, t).None? then s else StartOne(s, t, PickDevice(s, t).value)
  }

  /** A scheduling pass: the tasks it starts, and the states before, between and after. */
  datatype Pass = Pass(states: seq<State>, started: seq<Task>)

  /** The slots the pass finds free when it begins. */
  function Slots(s: State): int {
    s.maxConcurrent - |s.running|
  }

  ghost predicate StartsAt(p: Pass, i: nat)
    requires i + 1 < |p.states| && i < |p.started|
  {
    && i < Slots(p.states[0]) && CanStart(p.states[i], p.started[i])
    && p.states[i + 1] == StartNext(p.states[i], p.started[i])
  }

  /** The beginning of a pass. */
  ghost predicate IsStart(p: Pass) {
    && |p.states| == |p.started| + 1
    && forall i {:trigger StartsAt(p, i)} :: 0 <= i < |p.started| ==> StartsAt(p, i)
  }

  function Final(p: Pass): State
    requires p.states != []
  {
    p.states[|p.states| - 1]
  }

  /** The pass ends: no slot, no task, or no device for a head of the queue. */
  ghost predicate PassEnds(p: Pass)
    requires p.states != []
  {
    || |p.started| >= Slots(p.states[0])
    || Final(p).pending == multiset{}
    || exists t :: IsHead(Final(p).pending, t) && PickDevice(Final(p), t).None?
  }

  ghost predicate IsPass(p: Pass) {
    IsStart(p) && PassEnds(p)
  }

  // ---------------------------------------------------------------------------------------------
  // The invariant
  // ---------------------------------------------------------------------------------------------

  ghost predicate Keyed(m: map<TaskId, Task>) {
    forall id :: id in m ==> m[id].id == id
  }

  /** Every task is in one container, once. */
  ghost predicate Partitioned(s: State) {
    && Keyed(s.running) && Keyed(s.completed) && Keyed(s.failed)
    && s.running.Keys !! s.completed.Keys && s.running.Keys !! s.failed.Keys
    && s.completed.Keys !! s.failed.Keys
    && (forall t :: t in s.pending ==>
          s.pending[t] == 1 && t.id !in s.running && t.id !in s.completed && t.id !in s.failed)
    && (forall t, u :: t in s.pending && u in s.pending && t.id == u.id ==> t == u)
  }

  /** The counters are the sizes of the containers and sum to the total. */
  ghost predicate Counted(s: State) {
    && s.stats.pending == |s.pending| && s.stats.running == |s.running|
    && s.stats.completed == |s.completed| && s.stats.failed == |s.failed|
    && s.stats.total == |s.pending| + |s.running| + |s.completed| + |s.failed|
  }

  /** The device a running task names is allocated and names the task back. */
  ghost predicate HoldsDevice(s: State, id: TaskId)
    requires id in s.running
  {
    s.running[id].device.Some? ==>
      var g := s.running[id].device.value;
      g in s.devices && s.devices[g].state == DeviceAllocated && s.devices[g].currentTask == Some(id)
  }

  /** The task an allocated device names runs and names the device back. */
  ghost predicate NamesHolder(s: State, g: int)
    requires g in s.devices
  {
    s.devices[g].state == DeviceAllocated ==>
      && s.devices[g].currentTask.Some?
      && var id := s.devices[g].currentTask.value;
         id in s.running && s.running[id].device == Some(g)
  }

  /** A device is allocated exactly when a running task names it, and it names that task back. */
  ghost predicate Exclusive(s: State) {
    && (forall id {:trigger HoldsDevice(s, id)} :: id in s.running ==> HoldsDevice(s, id))
    && (forall g {:trigger NamesHolder(s, g)} :: g in s.devices ==> NamesHolder(s, g))
  }

  /** Nobody runs beyond the limit. */
  ghost predicate Limited(s: State) {
    |s.running| <= if s.maxConcurrent < 0 then 0 else s.maxConcurrent
  }

  ghost predicate Orderly(s: State) {
    Partitioned(s) && Exclusive(s)
  }

  ghost predicate Numbers(s: State) {
    Counted(s) && Limited(s)
  }

  ghost predicate Inv(s: State) {
    Orderly(s) && Numbers(s)
  }

  // ---------------------------------------------------------------------------------------------
  // Every call keeps the containers apart and the devices exclusive
  // ---------------------------------------------------------------------------------------------

  /** No task of the scheduler has the id. */
  ghost predicate FreshId(s: State, id: TaskId) {
    && (forall u :: u in s.pending ==> u.id != id)
    && id !in s.running && id !in s.completed && id !in s.failed
  }

  lemma SameExclusive(a: State, b: State)
    requires Exclusive(a) && b.running == a.running && b.devices == a.devices
    ensures Exclusive(b)
  {
    forall k | k in b.running ensures HoldsDevice(b, k) {
      assert HoldsDevice(a, k);
    }
    forall g | g in b.devices ensures NamesHolder(b, g) {
      assert NamesHolder(a, g);
    }
  }

  lemma SubmitPartitions(s: State, t: Task)
    requires Partitioned(s) && FreshId(s, t.id)
    ensures Partitioned(Submit(s, t))
  {
    var queued := t.(status := Queued);
    assert queued !in s.pending;
  }

  /** A reused id puts the task in two places, or twice in the queue. */
  lemma SubmitBreaks(s: State, t: Task)
    requires WithinQuota(s, t) && !FreshId(s, t.id)
    ensures !Partitioned(Submit(s, t))
  {
    var next, queued := Submit(s, t), t.(status := Queued);
    assert queued in next.pending;
    if u :| u in s.pending && u.id == t.id {
      assert u in next.pending;
      if u == queued {
        assert next.pending[queued] == s.pending[queued] + 1;
      }
    }
  }

  lemma SubmitExclusive(s: State, t: Task)
    requires Exclusive(s)
    ensures Exclusive(Submit(s, t))
  {
    SameExclusive(s, Submit(s, t));
  }

  lemma SubmitKeepsIff(s: State, t: Task)
    requires Orderly(s)
    ensures Orderly(Submit(s, t)) <==> WithinQuota(s, t) ==> FreshId(s, t.id)
  {
    SubmitExclusive(s, t);
    if WithinQuota(s, t) {
      if FreshId(s, t.id) {
        SubmitPartitions(s, t);
      } else {
        SubmitBreaks(s, t);
      }
    }
  }

  lemma CancelPendingKeeps(s: State, t: Task)
    requires Orderly(s) && t in s.pending
    ensures Orderly(CancelPending(s, t))
  {
    SameExclusive(s, CancelPending(s, t));
  }

  /** A task that runs no more, or runs without its device, leaves the others' devices alone. */
  lemma ReleaseKeeps(s: State, id: TaskId, next: State)
    requires Exclusive(s) && id in s.running && next.running.Keys <= s.running.Keys
    requires forall k :: k in s.running && k != id ==> k in next.running && next.running[k] == s.running[k]
    requires id in next.running ==> next.running[id].device.None?
    requires next.devices == ReleaseIn(s.devices, s.running[id].device)
    ensures Exclusive(next)
  {
    assert HoldsDevice(s, id);
    forall k | k in next.running ensures HoldsDevice(next, k) {
      assert k in s.running && (k != id ==> HoldsDevice(s, k));
    }
    forall g | g in next.devices ensures NamesHolder(next, g) {
      assert NamesHolder(s, g);
    }
  }

  lemma CancelRunningKeeps(s: State, id: TaskId)
    requires Orderly(s) && id in s.running
    ensures Orderly(CancelRunning(s, id))
  {
    ReleaseKeeps(s, id, CancelRunning(s, id));
  }

  lemma CancelKeeps(s: State, id: TaskId, next: State)
    requires Orderly(s) && Cancels(s, id, next)
    ensures Orderly(next)
  {
    if Waits(s, id) {
      var t :| t in s.pending && t.id == id && next == CancelPending(s, t);
      CancelPendingKeeps(s, t);
    } else if id in s.running {
      CancelRunningKeeps(s, id);
    }
  }

  lemma MarkRunningKeeps(s: State, id: TaskId)
    requires Orderly(s)
    ensures Orderly(MarkRunning(s, id))
  {
    MarkRunningExclusive(s, id);
  }

  lemma MarkRunningExclusive(s: State, id: TaskId)
    requires Exclusive(s)
    ensures Exclusive(MarkRunning(s, id))
  {
    var next := MarkRunning(s, id);
    forall k | k in next.running ensures HoldsDevice(next, k) {
      assert HoldsDevice(s, k);
    }
    forall g | g in next.devices ensures NamesHolder(next, g) {
      assert NamesHolder(s, g);
    }
  }

  lemma CompletePartitions(s: State, id: TaskId)
    requires Partitioned(s) && id in s.running
    ensures Partitioned(Complete(s, id))
  {
  }

  lemma FailPartitions(s: State, id: TaskId)
    requires Partitioned(s) && id in s.running
    ensures Partitioned(Fail(s, id))
  {
  }

  lemma CompleteKeeps(s: State, id: TaskId)
    requires Orderly(s)
    ensures Orderly(Complete(s, id))
  {
    if id in s.running {
      CompletePartitions(s, id);
      ReleaseKeeps(s, id, Complete(s, id));
    }
  }

  lemma FailKeeps(s: State, id: TaskId)
    requires Orderly(s)
    ensures Orderly(Fail(s, id))
  {
    if id in s.running {
      FailPartitions(s, id);
      ReleaseKeeps(s, id, Fail(s, id));
    }
  }

  lemma StartPartitions(s: State, t: Task, g: int)
    requires Partitioned(s) && t in s.pending
    ensures Partitioned(StartOne(s, t, g))
  {
  }

  lemma StartDevices(s: State, t: Task, g: int)
    requires Exclusive(s) && t.id !in s.running
    requires g in s.devices && s.devices[g].CanAllocate(0)
    ensures Exclusive(StartOne(s, t, g))
  {
    var next := StartOne(s, t, g);
    assert NamesHolder(s, g);
    forall k | k in next.running ensures HoldsDevice(next, k) {
      assert k != t.id ==> HoldsDevice(s, k);
    }
    forall h | h in next.devices ensures NamesHolder(next, h) {
      assert NamesHolder(s, h);
    }
  }

  /** A picked device is really allocated exactly when its own memory is not negative: otherwise it
      refuses, and nobody notices. */
  lemma StartAllocatesIff(s: State, t: Task, g: int)
    requires Exclusive(s) && t.id !in s.running && PickDevice(s, t) == Some(g)
    ensures Exclusive(StartOne(s, t, g)) <==> s.devices[g].availableMemoryMb >= 0
  {
    if s.devices[g].availableMemoryMb >= 0 {
      StartDevices(s, t, g);
    } else {
      assert !HoldsDevice(StartOne(s, t, g), t.id);
    }
  }

  /** One turn of a pass. */
  lemma Turn(p: Pass, i: nat) returns (g: int)
    requires IsStart(p) && i < |p.started|
    ensures IsHead(p.states[i].pending, p.started[i]) && i < Slots(p.states[0])
    ensures PickDevice(p.states[i], p.started[i]) == Some(g)
    ensures p.states[i + 1] == StartOne(p.states[i], p.started[i], g)
  {
    assert StartsAt(p, i);
    g := PickDevice(p.states[i], p.started[i]).value;
  }

  lemma {:induction false} PassPartitions(p: Pass, i: nat)
    requires IsStart(p) && Partitioned(p.states[0]) && i < |p.states|
    ensures Partitioned(p.states[i])
  {
    if i > 0 {
      PassPartitions(p, i - 1);
      var g := Turn(p, i - 1);
      StartPartitions(p.states[i - 1], p.started[i - 1], g);
    }
  }

  /** Every task of the pass is new to the running tasks. */
  ghost predicate StartsNew(p: Pass, i: nat)
    requires i < |p.started| && i < |p.states|
  {
    p.started[i].id !in p.states[i].running
  }

  lemma PassStartsNew(p: Pass)
    requires IsStart(p) && Partitioned(p.states[0])
    ensures forall i {:trigger StartsNew(p, i)} :: 0 <= i < |p.started| ==> StartsNew(p, i)
  {
    forall i | 0 <= i < |p.started| ensures StartsNew(p, i) {
      PassPartitions(p, i);
      var g := Turn(p, i);
    }
  }

  /** The device picked in turn i has no negative memory. */
  ghost predicate AllocatesAt(p: Pass, i: nat)
    requires i < |p.started| && i < |p.states|
  {
    var g := PickDevice(p.states[i], p.started[i]);
    g.Some? ==> p.states[i].devices[g.value].availableMemoryMb >= 0
  }

  ghost predicate Allocates(p: Pass)
    requires |p.started| <= |p.states|
  {
    forall i {:trigger AllocatesAt(p, i)} :: 0 <= i < |p.started| ==> AllocatesAt(p, i)
  }

  lemma {:induction false} PassExclusive(p: Pass, i: nat)
    requires IsStart(p) && Exclusive(p.states[0]) && Allocates(p) && i < |p.states|
    requires forall k {:trigger StartsNew(p, k)} :: 0 <= k < |p.started| ==> StartsNew(p, k)
    ensures Exclusive(p.states[i])
  {
    if i > 0 {
      PassExclusive(p, i - 1);
      var g := Turn(p, i - 1);
      assert StartsNew(p, i - 1) && AllocatesAt(p, i - 1);
      StartAllocatesIff(p.states[i - 1], p.started[i - 1], g);
    }
  }

  /** The running task names a device that refused it. */
  ghost predicate Refused(s: State, id: TaskId, g: int) {
    && id in s.running && s.running[id].device == Some(g)
    && g in s.devices && s.devices[g].state == DeviceIdle && s.devices[g].availableMemoryMb < 0
  }

  lemma StartRefuses(s: State, t: Task, g: int)
    requires PickDevice(s, t) == Some(g) && s.devices[g].availableMemoryMb < 0
    ensures Refused(StartOne(s, t, g), t.id, g)
  {
  }

  lemma StaysRefused(s: State, id: TaskId, g: int, t: Task, h: int)
    requires Refused(s, id, g) && t.id != id && PickDevice(s, t) == Some(h)
    ensures Refused(StartOne(s, t, h), id, g)
  {
  }

  /** A refused task stays refused to the end of the pass. */
  lemma {:induction false} PassRefuses(p: Pass, i: nat, j: nat, g: int)
    requires IsStart(p) && i < j < |p.states| && PickDevice(p.states[i], p.started[i]) == Some(g)
    requires p.states[i].devices[g].availableMemoryMb < 0
    requires forall k {:trigger StartsNew(p, k)} :: 0 <= k < |p.started| ==> StartsNew(p, k)
    ensures Refused(p.states[j], p.started[i].id, g)
  {
    if j == i + 1 {
      var h := Turn(p, i);
      StartRefuses(p.states[i], p.started[i], g);
    } else {
      PassRefuses(p, i, j - 1, g);
      var h := Turn(p, j - 1);
      assert StartsNew(p, j - 1);
      StaysRefused(p.states[j - 1], p.started[i].id, g, p.started[j - 1], h);
    }
  }

  lemma RefusedBreaks(s: State, id: TaskId, g: int)
    requires Refused(s, id, g)
    ensures !Exclusive(s)
  {
    assert !HoldsDevice(s, id);
  }

  /** A pass keeps devices exclusive exactly when no device it picks has negative memory. */
  lemma PassKeepsIff(p: Pass)
    requires IsStart(p) && Orderly(p.states[0])
    ensures Orderly(Final(p)) <==> Allocates(p)
  {
    var n := |p.started|;
    PassPartitions(p, n);
    PassStartsNew(p);
    if Allocates(p) {
      PassExclusive(p, n);
    } else {
      var i :| 0 <= i < n && !AllocatesAt(p, i);
      var g := Turn(p, i);
      PassRefuses(p, i, n, g);
      RefusedBreaks(Final(p), p.started[i].id, g);
    }
  }

  /** The metrics loop writes the memory of allocated devices. */
  function Measure(s: State, g: int, availableMemoryMb: int): State {
    if g in s.devices && s.devices[g].state == DeviceAllocated
    then s.(devices := s.devices[g := s.devices[g].(availableMemoryMb := availableMemoryMb)])
    else s
  }

  lemma MeasureKeeps(s: State, g: int, availableMemoryMb: int)
    requires Orderly(s)
    ensures Orderly(Measure(s, g, availableMemoryMb))
  {
    var next := Measure(s, g, availableMemoryMb);
    forall k | k in next.running ensures HoldsDevice(next, k) {
      assert HoldsDevice(s, k);
    }
    forall h | h in next.devices ensures NamesHolder(next, h) {
      assert NamesHolder(s, h);
    }
  }

  // ---------------------------------------------------------------------------------------------
  // Every call keeps the counters and the limit
  // ---------------------------------------------------------------------------------------------

  lemma MapAdds<K, V>(m: map<K, V>, k: K, v: V)
    requires k !in m
    ensures |m[k := v]| == |m| + 1
  {
    assert m[k := v].Keys == m.Keys + {k};
  }

  lemma MapReplaces<K, V>(m: map<K, V>, k: K, v: V)
    requires k in m
    ensures |m[k := v]| == |m|
  {
    assert m[k := v].Keys == m.Keys;
  }

  lemma MapDrops<K, V>(m: map<K, V>, k: K)
    requires k in m
    ensures |m - {k}| == |m| - 1
  {
    assert (m - {k}).Keys == m.Keys - {k};
  }

  lemma CancelPendingNumbers(s: State, t: Task)
    requires Numbers(s) && t in s.pending && t.id !in s.failed
    ensures Numbers(CancelPending(s, t))
  {
    MapAdds(s.failed, t.id, t.(status := Cancelled));
  }

  lemma MarkNumbers(s: State, id: TaskId)
    requires Numbers(s) && id in s.running
    ensures Numbers(CancelRunning(s, id)) && Numbers(MarkRunning(s, id))
  {
    MapReplaces(s.running, id, s.running[id].(status := Cancelled, device := None));
    MapReplaces(s.running, id, s.running[id].(status := Running));
  }

  lemma MoveNumbers(s: State, id: TaskId)
    requires Numbers(s) && id in s.running && id !in s.completed && id !in s.failed
    ensures Numbers(Complete(s, id)) && Numbers(Fail(s, id))
  {
    MapDrops(s.running, id);
    MapAdds(s.completed, id, s.running[id].(status := Completed, device := None));
    MapAdds(s.failed, id, s.running[id].(status := Failed, device := None));
  }

  lemma StartRuns(s: State, t: Task, g: int)
    requires t.id !in s.running
    ensures StartOne(s, t, g).running.Keys == s.running.Keys + {t.id}
    ensures |StartOne(s, t, g).running| == |s.running| + 1
  {
    MapAdds(s.running, t.id, t.(status := Scheduled, device := Some(g)));
  }

  lemma StartCounts(s: State, t: Task, g: int)
    requires Counted(s) && t in s.pending && t.id !in s.running
    ensures Counted(StartOne(s, t, g))
  {
    StartRuns(s, t, g);
  }

  lemma {:induction false} PassCounts(p: Pass, i: nat)
    requires IsStart(p) && Counted(p.states[0]) && i < |p.states|
    requires forall k {:trigger StartsNew(p, k)} :: 0 <= k < |p.started| ==> StartsNew(p, k)
    ensures Counted(p.states[i])
  {
    if i > 0 {
      PassCounts(p, i - 1);
      var g := Turn(p, i - 1);
      assert StartsNew(p, i - 1);
      StartCounts(p.states[i - 1], p.started[i - 1], g);
    }
  }

  /** Sets that grow by one new element each. */
  ghost predicate GrowsByOne(sets: seq<set<TaskId>>, ids: seq<TaskId>) {
    && |sets| == |ids| + 1
    && forall k {:trigger ids[k]} :: 0 <= k < |ids| ==>
         ids[k] !in sets[k] && sets[k + 1] == sets[k] + {ids[k]}
  }

  lemma {:induction false} GrowthCounts(sets: seq<set<TaskId>>, ids: seq<TaskId>, i: nat)
    requires GrowsByOne(sets, ids) && i <= |ids|
    ensures |sets[i]| == |sets[0]| + i && sets[0] <= sets[i]
    ensures forall k :: 0 <= k < i ==> ids[k] in sets[i]
  {
    if i > 0 {
      GrowthCounts(sets, ids, i - 1);
      var last := ids[i - 1];
      assert sets[i] == sets[i - 1] + {last};
    }
  }

  lemma TurnRuns(p: Pass, i: nat)
    requires IsStart(p) && i < |p.started| && StartsNew(p, i)
    ensures p.states[i + 1].running.Keys == p.states[i].running.Keys + {p.started[i].id}
    ensures p.states[i + 1].maxConcurrent == p.states[i].maxConcurrent
  {
    var g := Turn(p, i);
    StartRuns(p.states[i], p.started[i], g);
  }

  ghost function RunningSets(states: seq<State>): (sets: seq<set<TaskId>>)
    ensures |sets| == |states| && forall k :: 0 <= k < |states| ==> sets[k] == states[k].running.Keys
  {
    seq(|states|, (k: nat) requires k < |states| => states[k].running.Keys)
  }

  function IdsOf(tasks: seq<Task>): (ids: seq<TaskId>)
    ensures |ids| == |tasks| && forall k :: 0 <= k < |tasks| ==> ids[k] == tasks[k].id
  {
    seq(|tasks|, (k: nat) requires k < |tasks| => tasks[k].id)
  }

  lemma {:induction false} PassLimit(p: Pass, i: nat)
    requires IsStart(p) && i < |p.states|
    requires forall k {:trigger StartsNew(p, k)} :: 0 <= k < |p.started| ==> StartsNew(p, k)
    ensures p.states[i].maxConcurrent == p.states[0].maxConcurrent
  {
    if i > 0 {
      PassLimit(p, i - 1);
      assert StartsNew(p, i - 1);
      TurnRuns(p, i - 1);
    }
  }

  lemma PassGrows(p: Pass)
    requires IsStart(p)
    requires forall k {:trigger StartsNew(p, k)} :: 0 <= k < |p.started| ==> StartsNew(p, k)
    ensures GrowsByOne(RunningSets(p.states), IdsOf(p.started))
  {
    var ids := IdsOf(p.started);
    forall k {:trigger ids[k]} | 0 <= k < |ids|
      ensures ids[k] !in p.states[k].running.Keys
              && p.states[k + 1].running.Keys == p.states[k].running.Keys + {ids[k]}
    {
      assert StartsNew(p, k);
      TurnRuns(p, k);
    }
  }

  /** The tasks that ran still run, and so does everything the pass started. */
  lemma PassRuns(p: Pass, i: nat)
    requires IsStart(p) && i < |p.states|
    requires forall k {:trigger StartsNew(p, k)} :: 0 <= k < |p.started| ==> StartsNew(p, k)
    ensures |p.states[i].running| == |p.states[0].running| + i
    ensures p.states[0].running.Keys <= p.states[i].running.Keys
    ensures forall k :: 0 <= k < i ==> p.started[k].id in p.states[i].running
    ensures p.states[i].maxConcurrent == p.states[0].maxConcurrent
  {
    PassGrows(p);
    GrowthCounts(RunningSets(p.states), IdsOf(p.started), i);
    PassLimit(p, i);
    var ids := IdsOf(p.started);
    forall k | 0 <= k < i ensures p.started[k].id in p.states[i].running {
      assert ids[k] in RunningSets(p.states)[i];
    }
  }

  lemma PassNumbers(p: Pass)
    requires IsStart(p) && Numbers(p.states[0])
    requires forall k {:trigger StartsNew(p, k)} :: 0 <= k < |p.started| ==> StartsNew(p, k)
    ensures Numbers(Final(p))
  {
    var n := |p.started|;
    PassCounts(p, n);
    PassRuns(p, n);
    if n > 0 {
      var g := Turn(p, n - 1);
    }
  }

  /** Where an id may be. */
  lemma OnePlace(s: State, id: TaskId)
    requires Orderly(s)
    ensures id in s.running ==> id !in s.completed && id !in s.failed
    ensures Waits(s, id) ==> id !in s.failed
  {
  }

  lemma CancelNumbers(s: State, id: TaskId, next: State)
    requires Numbers(s) && (Waits(s, id) ==> id !in s.failed) && Cancels(s, id, next)
    ensures Numbers(next)
  {
    if Waits(s, id) {
      var t :| t in s.pending && t.id == id && next == CancelPending(s, t);
      CancelPendingNumbers(s, t);
    } else if id in s.running {
      MarkNumbers(s, id);
    }
  }

  // ---------------------------------------------------------------------------------------------
  // No overtaking
  // ---------------------------------------------------------------------------------------------

  lemma KeyLeqTransitive(x: Task, y: Task, z: Task)
    requires KeyLeq(x, y) && KeyLeq(y, z)
    ensures KeyLeq(x, z)
  {
  }

  lemma TurnTakes(p: Pass, i: nat)
    requires IsStart(p) && i < |p.started|
    ensures p.started[i] in p.states[i].pending
    ensures p.states[i + 1].pending == p.states[i].pending - multiset{p.started[i]}
  {
    var g := Turn(p, i);
  }

  lemma TakenApart(p: multiset<Task>, begun: multiset<Task>, t: Task, q: multiset<Task>)
    requires t in q && p == begun + q
    ensures p == (begun + multiset{t}) + (q - multiset{t})
  {
    assert q == multiset{t} + (q - multiset{t});
  }

  lemma MultisetSnoc(begun: seq<Task>, t: Task)
    ensures multiset(begun + [t]) == multiset(begun) + multiset{t}
  {
  }

  /** What a pass starts comes out of the queue, once, and nothing else does. */
  lemma {:induction false} PassTakes(p: Pass, i: nat)
    requires IsStart(p) && i < |p.states|
    ensures p.states[0].pending == multiset(p.started[..i]) + p.states[i].pending
  {
    if i == 0 {
      assert p.started[..0] == [];
    } else {
      var begun, t := p.started[..i - 1], p.started[i - 1];
      PassTakes(p, i - 1);
      TurnTakes(p, i - 1);
      TakenApart(p.states[0].pending, multiset(begun), t, p.states[i - 1].pending);
      MultisetSnoc(begun, t);
      assert p.started[..i] == begun + [t];
    }
  }

  lemma {:induction false} WaitedBefore(p: Pass, i: nat, j: nat, u: Task)
    requires IsStart(p) && i <= j < |p.states| && u in p.states[j].pending
    ensures u in p.states[i].pending
    decreases j - i
  {
    if i < j {
      TurnTakes(p, j - 1);
      WaitedBefore(p, i, j - 1, u);
    }
  }

  /** The task starts in turn i or later, or is left waiting. */
  ghost predicate StillWaits(p: Pass, i: nat, u: Task)
    requires p.states != []
  {
    u in Final(p).pending || exists j :: i <= j < |p.started| && p.started[j] == u
  }

  /** A pass starts waiting tasks in key order, all of them ahead of those it leaves. */
  lemma PassOrder(p: Pass, i: nat, u: Task)
    requires IsStart(p) && i < |p.started| && StillWaits(p, i, u)
    ensures KeyLeq(p.started[i], u)
  {
    if u in Final(p).pending {
      WaitedBefore(p, i, |p.started|, u);
    } else {
      var j :| i <= j < |p.started| && p.started[j] == u;
      TurnTakes(p, j);
      WaitedBefore(p, i, j, u);
    }
    var g := Turn(p, i);
  }

  /** With creation times close together nobody of higher priority, or as high and older, is left
      waiting, or started later, when a task starts. */
  lemma NoOvertaking(p: Pass, i: nat, u: Task)
    requires IsStart(p) && i < |p.started| && StillWaits(p, i, u)
    requires CloseInTime(u, p.started[i])
    ensures !Before(u, p.started[i])
  {
    PassOrder(p, i, u);
    KeyOrderIsPriority(u, p.started[i]);
  }

  // ---------------------------------------------------------------------------------------------
  // Runs
  // ---------------------------------------------------------------------------------------------

  datatype Op =
    | OpSubmit(task: Task)
    | OpCancel(id: TaskId)
    | OpRunning(id: TaskId)
    | OpComplete(id: TaskId)
    | OpFail(id: TaskId)
    | OpSchedule(pass: Pass)
    | OpMeasure(device: int, availableMemoryMb: int)
    | OpQuota(user: UserId, quota: Quota)

  /** The call takes state s to state next. */
  ghost predicate Steps(s: State, op: Op, next: State) {
    match op
    case OpSubmit(task) => next == Submit(s, task)
    case OpCancel(id) => Cancels(s, id, next)
    case OpRunning(id) => next == MarkRunning(s, id)
    case OpComplete(id) => next == Complete(s, id)
    case OpFail(id) => next == Fail(s, id)
    case OpSchedule(pass) => IsPass(pass) && pass.states[0] == s && next == Final(pass)
    case OpMeasure(device, availableMemoryMb) => next == Measure(s, device, availableMemoryMb)
    case OpQuota(user, quota) => next == s.(quotas := s.quotas[user := quota])
  }

  /** A submitted id is new, and no device that a pass picks has negative memory. */
  ghost predicate OpFine(s: State, op: Op) {
    match op
    case OpSubmit(task) => WithinQuota(s, task) ==> FreshId(s, task.id)
    case OpSchedule(pass) => IsPass(pass) ==> Allocates(pass)
    case _ => true
  }

  lemma QuotaKeeps(s: State, user: UserId, quota: Quota)
    requires Orderly(s)
    ensures Orderly(s.(quotas := s.quotas[user := quota]))
  {
    SameExclusive(s, s.(quotas := s.quotas[user := quota]));
  }

  lemma StepKeepsIff(s: State, op: Op, next: State)
    requires Orderly(s) && Steps(s, op, next)
    ensures Orderly(next) <==> OpFine(s, op)
  {
    match op {
      case OpSubmit(task) => SubmitKeepsIff(s, task);
      case OpCancel(id) => CancelKeeps(s, id, next);
      case OpRunning(id) => MarkRunningKeeps(s, id);
      case OpComplete(id) => CompleteKeeps(s, id);
      case OpFail(id) => FailKeeps(s, id);
      case OpSchedule(pass) => PassKeepsIff(pass);
      case OpMeasure(device, availableMemoryMb) => MeasureKeeps(s, device, availableMemoryMb);
      case OpQuota(user, quota) => QuotaKeeps(s, user, quota);
    }
  }

  /** What the counters need of the containers. */
  ghost predicate Placed(s: State, op: Op) {
    match op
    case OpCancel(id) => Waits(s, id) ==> id !in s.failed
    case OpComplete(id) => id in s.running ==> id !in s.completed && id !in s.failed
    case OpFail(id) => id in s.running ==> id !in s.completed && id !in s.failed
    case OpSchedule(pass) =>
      IsPass(pass) && pass.states[0] == s ==>
        forall i {:trigger StartsNew(pass, i)} :: 0 <= i < |pass.started| ==> StartsNew(pass, i)
    case _ => true
  }

  lemma OrderlyPlaced(s: State, op: Op)
    requires Orderly(s)
    ensures Placed(s, op)
  {
    match op {
      case OpCancel(id) => OnePlace(s, id);
      case OpComplete(id) => OnePlace(s, id);
      case OpFail(id) => OnePlace(s, id);
      case OpSchedule(pass) =>
        if IsPass(pass) && pass.states[0] == s {
          PassStartsNew(pass);
        }
      case _ =>
    }
  }

  lemma StepNumbers(s: State, op: Op, next: State)
    requires Numbers(s) && Placed(s, op) && Steps(s, op, next)
    ensures Numbers(next)
  {
    match op {
      case OpCancel(id) => CancelNumbers(s, id, next);
      case OpRunning(id) => if id in s.running { MarkNumbers(s, id); }
      case OpComplete(id) => if id in s.running { MoveNumbers(s, id); }
      case OpFail(id) => if id in s.running { MoveNumbers(s, id); }
      case OpSchedule(pass) => PassNumbers(pass);
      case _ =>
    }
  }

  /** A call keeps the invariant exactly when it submits no reused id and picks no device with negative
      memory. */
  lemma StepInvIff(s: State, op: Op, next: State)
    requires Inv(s) && Steps(s, op, next)
    ensures Inv(next) <==> OpFine(s, op)
  {
    OrderlyPlaced(s, op);
    StepNumbers(s, op, next);
    StepKeepsIff(s, op, next);
  }

  /** Call k takes state k to state k + 1. */
  ghost predicate StepAt(states: seq<State>, ops: seq<Op>, k: nat)
    requires k < |ops| && k + 1 < |states|
  {
    Steps(states[k], ops[k], states[k + 1])
  }

  ghost predicate Initial(s: State) {
    && s.pending == multiset{} && s.running == map[] && s.completed == map[] && s.failed == map[]
    && s.stats == Stats(0, 0, 0, 0, 0)
    && forall g :: g in s.devices ==> s.devices[g].state != DeviceAllocated
  }

  /** The states of a run from an empty scheduler. */
  ghost predicate IsRun(states: seq<State>, ops: seq<Op>) {
    && |states| == |ops| + 1 && Initial(states[0])
    && forall k {:trigger StepAt(states, ops, k)} :: 0 <= k < |ops| ==> StepAt(states, ops, k)
  }

  ghost predicate FineAt(states: seq<State>, ops: seq<Op>, k: nat)
    requires k < |ops| && k < |states|
  {
    OpFine(states[k], ops[k])
  }

  ghost predicate AllFine(states: seq<State>, ops: seq<Op>)
    requires |ops| <= |states|
  {
    forall k {:trigger FineAt(states, ops, k)} :: 0 <= k < |ops| ==> FineAt(states, ops, k)
  }

  lemma InitialInv(s: State)
    requires Initial(s)
    ensures Inv(s)
  {
    forall g | g in s.devices ensures NamesHolder(s, g) {
    }
  }

  lemma StepInvAt(states: seq<State>, ops: seq<Op>, k: nat)
    requires IsRun(states, ops) && k < |ops| && Inv(states[k])
    ensures Inv(states[k + 1]) <==> FineAt(states, ops, k)
  {
    assert StepAt(states, ops, k);
    StepInvIff(states[k], ops[k], states[k + 1]);
  }

  lemma {:induction false} RunOrderly(states: seq<State>, ops: seq<Op>, k: nat)
    requires IsRun(states, ops) && AllFine(states, ops) && k <= |ops|
    ensures Orderly(states[k])
  {
    if k == 0 {
      InitialInv(states[0]);
    } else {
      RunOrderly(states, ops, k - 1);
      assert FineAt(states, ops, k - 1) && StepAt(states, ops, k - 1);
      StepKeepsIff(states[k - 1], ops[k - 1], states[k]);
    }
  }

  lemma PlacedInRun(states: seq<State>, ops: seq<Op>, k: nat)
    requires IsRun(states, ops) && AllFine(states, ops) && k < |ops|
    ensures Placed(states[k], ops[k])
  {
    RunOrderly(states, ops, k);
    OrderlyPlaced(states[k], ops[k]);
  }

  lemma {:induction false} RunNumbers(states: seq<State>, ops: seq<Op>, k: nat)
    requires IsRun(states, ops) && AllFine(states, ops) && k <= |ops|
    ensures Numbers(states[k])
  {
    if k == 0 {
      InitialNumbers(states[0]);
    } else {
      RunNumbers(states, ops, k - 1);
      NumbersAt(states, ops, k - 1);
    }
  }

  lemma NumbersAt(states: seq<State>, ops: seq<Op>, k: nat)
    requires IsRun(states, ops) && AllFine(states, ops) && k < |ops| && Numbers(states[k])
    ensures Numbers(states[k + 1])
  {
    PlacedInRun(states, ops, k);
    assert StepAt(states, ops, k);
    StepNumbers(states[k], ops[k], states[k + 1]);
  }

  lemma InitialNumbers(s: State)
    requires Initial(s)
    ensures Numbers(s)
  {
  }

  /** Over any run: a device is allocated exactly when one running task holds it and the two name each
      other; every task is in one container; the counters are the sizes; the limit holds. */
  lemma RunKeeps(states: seq<State>, ops: seq<Op>, k: nat)
    requires IsRun(states, ops) && AllFine(states, ops) && k <= |ops|
    ensures Inv(states[k])
  {
    RunOrderly(states, ops, k);
    RunNumbers(states, ops, k);
  }

  /** The invariant holds all through a run exactly when no accepted submission reuses an id and no pass
      picks a device with negative memory. */
  lemma RunKeepsIff(states: seq<State>, ops: seq<Op>)
    requires IsRun(states, ops)
    ensures (forall k :: 0 <= k <= |ops| ==> Inv(states[k])) <==> AllFine(states, ops)
  {
    if AllFine(states, ops) {
      forall k | 0 <= k <= |ops| ensures Inv(states[k]) {
        RunKeeps(states, ops, k);
      }
    } else {
      var k :| 0 <= k < |ops| && !FineAt(states, ops, k);
      if Inv(states[k]) {
        StepInvAt(states, ops, k);
      }
    }
  }

  // ---------------------------------------------------------------------------------------------
  // Requests that are not negative
  // ---------------------------------------------------------------------------------------------

  ghost predicate NonNegative(s: State) {
    forall t :: t in s.pending ==> t.memoryMb >= 0
  }

  lemma PickedHasMemory(s: State, t: Task)
    requires t.memoryMb >= 0 && PickDevice(s, t).Some?
    ensures s.devices[PickDevice(s, t).value].availableMemoryMb >= 0
  {
  }

  /** Without negative requests no pass picks a device with negative memory. */
  lemma NonNegativeAllocates(p: Pass)
    requires IsStart(p) && NonNegative(p.states[0])
    ensures Allocates(p)
  {
    forall i | 0 <= i < |p.started| ensures AllocatesAt(p, i) {
      TurnTakes(p, i);
      WaitedBefore(p, 0, i, p.started[i]);
      if PickDevice(p.states[i], p.started[i]).Some? {
        PickedHasMemory(p.states[i], p.started[i]);
      }
    }
  }

  lemma NonNegativeStays(s: State, op: Op, next: State)
    requires NonNegative(s) && Steps(s, op, next) && (op.OpSubmit? ==> op.task.memoryMb >= 0)
    ensures NonNegative(next)
  {
    if op.OpSchedule? {
      forall u | u in next.pending ensures u.memoryMb >= 0 {
        WaitedBefore(op.pass, 0, |op.pass.started|, u);
      }
    }
  }

  ghost predicate Asks(op: Op) {
    op.OpSubmit? ==> op.task.memoryMb >= 0
  }

  lemma {:induction false} RunNonNegative(states: seq<State>, ops: seq<Op>, k: nat)
    requires IsRun(states, ops) && k <= |ops| && forall i :: 0 <= i < |ops| ==> Asks(ops[i])
    ensures NonNegative(states[k])
  {
    if k > 0 {
      RunNonNegative(states, ops, k - 1);
      assert StepAt(states, ops, k - 1) && Asks(ops[k - 1]);
      NonNegativeStays(states[k - 1], ops[k - 1], states[k]);
    }
  }

  /** What callers can see to: with requests that are not negative and ids that are new, the invariant
      holds all through the run. */
  lemma CarefulRun(states: seq<State>, ops: seq<Op>, k: nat)
    requires IsRun(states, ops) && k <= |ops| && forall i :: 0 <= i < |ops| ==> Asks(ops[i])
    requires forall i :: 0 <= i < |ops| && ops[i].OpSubmit? ==> FreshId(states[i], ops[i].task.id)
    ensures Inv(states[k])
  {
    forall i | 0 <= i < |ops| ensures FineAt(states, ops, i) {
      if ops[i].OpSchedule? {
        RunNonNegative(states, ops, i);
        assert StepAt(states, ops, i);
        NonNegativeAllocates(ops[i].pass);
      }
    }
    RunKeeps(states, ops, k);
  }

  /** A negative request in a run: the only device has less memory than nothing, a task that asks for as
      little is submitted, and one pass leaves it running on a device that is idle. */
  lemma NegativeRequest() returns (states: seq<State>, ops: seq<Op>)
    ensures IsRun(states, ops) && |ops| == 2 && !AllFine(states, ops)
    ensures Refused(states[2], "t", 0) && !Exclusive(states[2])
  {
    var device := Device("nvidia", -1, DeviceIdle, None);
    var empty := State([0], map[0 := device], 1, multiset{}, map[], map[], map[], Stats(0, 0, 0, 0, 0),
                       map[], map[]);
    var task := Task("t", "u", 1, 0.0, -1, "", false, Created, None);
    var queued := Submit(empty, task);
    var waiting := task.(status := Queued);
    assert queued.pending == multiset{waiting};
    assert IsHead(queued.pending, waiting);
    assert PickDevice(queued, waiting) == Some(0);
    var next := StartOne(queued, waiting, 0);
    StartRefuses(queued, waiting, 0);
    RefusedBreaks(next, "t", 0);
    var pass := Pass([queued, next], [waiting]);
    assert StartsAt(pass, 0);
    states, ops := [empty, queued, next], [OpSubmit(task), OpSchedule(pass)];
    assert StepAt(states, ops, 0) && StepAt(states, ops, 1);
    assert !AllocatesAt(pass, 0) && !FineAt(states, ops, 1);
  }

  /** No two running tasks hold the same device, and an allocated device has exactly one holder. */
  lemma OneHolder(s: State, g: int)
    requires Exclusive(s) && g in s.devices
    ensures s.devices[g].state == DeviceAllocated <==>
            exists id :: id in s.running && s.running[id].device == Some(g)
    ensures forall x, y :: x in s.running && y in s.running ==>
              s.running[x].device == Some(g) && s.running[y].device == Some(g) ==> x == y
  {
    assert NamesHolder(s, g);
    forall x | x in s.running && s.running[x].device == Some(g)
      ensures s.devices[g].state == DeviceAllocated && s.devices[g].currentTask == Some(x)
    {
      assert HoldsDevice(s, x);
    }
  }

  // ---------------------------------------------------------------------------------------------
  // No task is lost
  // ---------------------------------------------------------------------------------------------

  ghost function Ids(s: State): set<TaskId> {
    (set t | t in s.pending :: t.id) + s.running.Keys + s.completed.Keys + s.failed.Keys
  }

  lemma {:induction false} PassIds(p: Pass, i: nat)
    requires IsStart(p) && i < |p.states|
    ensures Ids(p.states[i]) == Ids(p.states[0])
  {
    if i > 0 {
      PassIds(p, i - 1);
      TurnIds(p, i - 1);
    }
  }

  lemma TurnIds(p: Pass, i: nat)
    requires IsStart(p) && i < |p.started|
    ensures Ids(p.states[i + 1]) == Ids(p.states[i])
  {
    var g := Turn(p, i);
    StartIds(p.states[i], p.started[i], g);
  }

  lemma StartIds(s: State, t: Task, g: int)
    requires t in s.pending
    ensures Ids(StartOne(s, t, g)) == Ids(s)
  {
    var next := StartOne(s, t, g);
    forall u | u in s.pending ensures u.id in Ids(next) {
      assert u == t || u in next.pending;
    }
  }

  /** No call loses a task or makes one up: the only new id is that of an accepted submission. */
  lemma TasksConserved(s: State, op: Op, next: State)
    requires Steps(s, op, next)
    ensures Ids(next) == Ids(s) + if op.OpSubmit? && WithinQuota(s, op.task) then {op.task.id} else {}
  {
    if op.OpSubmit? {
      SubmitIds(s, op.task);
    } else {
      OtherIds(s, op, next);
    }
  }

  lemma OtherIds(s: State, op: Op, next: State)
    requires Steps(s, op, next) && !op.OpSubmit?
    ensures Ids(next) == Ids(s)
  {
    match op {
      case OpCancel(id) => CancelAnyIds(s, id, next);
      case OpRunning(id) => RunningIds(s, id);
      case OpComplete(id) => CompleteIds(s, id);
      case OpFail(id) => FailIds(s, id);
      case OpSchedule(pass) => PassIds(pass, |pass.started|);
      case OpMeasure(device, availableMemoryMb) => MeasureIds(s, device, availableMemoryMb);
      case OpQuota(user, quota) => SameIds(s, next);
    }
  }

  lemma SameIds(s: State, next: State)
    requires next.pending == s.pending && next.running == s.running
    requires next.completed == s.completed && next.failed == s.failed
    ensures Ids(next) == Ids(s)
  {
  }

  lemma CancelAnyIds(s: State, id: TaskId, next: State)
    requires Cancels(s, id, next)
    ensures Ids(next) == Ids(s)
  {
    if Waits(s, id) {
      var t :| t in s.pending && t.id == id && next == CancelPending(s, t);
      CancelIds(s, t);
    } else if id in s.running {
      MovedIds(s, next);
    }
  }

  lemma RunningIds(s: State, id: TaskId)
    ensures Ids(MarkRunning(s, id)) == Ids(s)
  {
    MovedIds(s, MarkRunning(s, id));
  }

  lemma CompleteIds(s: State, id: TaskId)
    ensures Ids(Complete(s, id)) == Ids(s)
  {
    MovedIds(s, Complete(s, id));
  }

  lemma FailIds(s: State, id: TaskId)
    ensures Ids(Fail(s, id)) == Ids(s)
  {
    MovedIds(s, Fail(s, id));
  }

  lemma MeasureIds(s: State, g: int, availableMemoryMb: int)
    ensures Ids(Measure(s, g, availableMemoryMb)) == Ids(s)
  {
    MovedIds(s, Measure(s, g, availableMemoryMb));
  }

  lemma MovedIds(s: State, next: State)
    requires next.pending == s.pending
    requires next.running.Keys + next.completed.Keys + next.failed.Keys
          == s.running.Keys + s.completed.Keys + s.failed.Keys
    ensures Ids(next) == Ids(s)
  {
  }

  lemma SubmitIds(s: State, t: Task)
    ensures Ids(Submit(s, t)) == Ids(s) + if WithinQuota(s, t) then {t.id} else {}
  {
    if WithinQuota(s, t) {
      var next := Submit(s, t);
      assert t.(status := Queued) in next.pending;
      forall u | u in s.pending ensures u in next.pending {
      }
    }
  }

  lemma CancelIds(s: State, t: Task)
    requires t in s.pending
    ensures Ids(CancelPending(s, t)) == Ids(s)
  {
    var next := CancelPending(s, t);
    forall u | u in s.pending ensures u.id in Ids(next) {
      assert u == t || u in next.pending;
    }
  }
}
