/** The scheduler and the device manager as objects updated in place (core/scheduler.py,
    core/gpu_manager.py), each method proved against module Scheduling. */
module TaskSchedulers {
  import opened Hashing
  import opened Sequences
  import opened Scheduling

  // ---------------------------------------------------------------------------------------------
  // The heap: any arrangement in which no parent has a larger key than its children
  // ---------------------------------------------------------------------------------------------

  predicate AboveParent(q: seq<Task>, k: nat)
    requires 0 < k < |q|
  {
    KeyLeq(q[(k - 1) / 2], q[k])
  }

  predicate IsHeap(q: seq<Task>) {
    forall k {:trigger AboveParent(q, k)} :: 0 < k < |q| ==> AboveParent(q, k)
  }

  lemma {:induction false} HeapMin(q: seq<Task>, k: nat)
    requires IsHeap(q) && k < |q|
    ensures KeyLeq(q[0], q[k])
  {
    if k > 0 {
      assert AboveParent(q, k);
      HeapMin(q, (k - 1) / 2);
      KeyLeqTransitive(q[0], q[(k - 1) / 2], q[k]);
    }
  }

  lemma HeadIsHead(q: seq<Task>)
    requires IsHeap(q) && q != []
    ensures IsHead(multiset(q), q[0])
  {
    forall u | u in multiset(q) ensures KeyLeq(q[0], u) {
      var k :| 0 <= k < |q| && q[k] == u;
      HeapMin(q, k);
    }
  }

  /** Every collection of tasks has a heap arrangement: sorted order is one. */
  lemma HeapExists(q: seq<Task>)
    ensures exists r: seq<Task> :: IsHeap(r) && multiset(r) == multiset(q)
  {
    var leq := (x: Task, y: Task) => KeyLeq(x, y);
    var r := Sort(leq, q);
    SortProperties(leq, q);
    forall k | 0 < k < |r| ensures AboveParent(r, k) {
      assert leq(r[(k - 1) / 2], r[k]);
    }
    assert IsHeap(r);
  }

  method Heapify(q: seq<Task>) returns (r: seq<Task>)
    ensures IsHeap(r) && multiset(r) == multiset(q)
  {
    HeapExists(q);
    r :| IsHeap(r) && multiset(r) == multiset(q);
  }

  method HeapPush(q: seq<Task>, item: Task) returns (r: seq<Task>)
    requires IsHeap(q)
    ensures IsHeap(r) && multiset(r) == multiset(q) + multiset{item}
  {
    r := Heapify(q + [item]);
  }

  method HeapPop(q: seq<Task>) returns (item: Task, r: seq<Task>)
    requires IsHeap(q) && q != []
    ensures IsHead(multiset(q), item) && IsHeap(r) && multiset(r) == multiset(q) - multiset{item}
    ensures |r| == |q| - 1
  {
    HeadIsHead(q);
    item := q[0];
    RestMultiset(q);
    r := Heapify(q[1..]);
    assert |multiset(r)| == |multiset(q[1..])|;
  }

  // ---------------------------------------------------------------------------------------------
  // The device manager
  // ---------------------------------------------------------------------------------------------

  class GpuManager {
    const order: seq<int>
    var devices: map<int, Device>

    constructor (order: seq<int>, devices: map<int, Device>)
      ensures this.order == order && this.devices == devices
    {
      this.order, this.devices := order, devices;
    }

    method GetAvailableDevice(requiredMemoryMb: int, gpuType: string) returns (r: Option<int>)
      ensures r == FirstFit(order, devices, requiredMemoryMb, gpuType)
    {
      for k := 0 to |order|
        invariant FirstFit(order, devices, requiredMemoryMb, gpuType)
               == FirstFit(order[k..], devices, requiredMemoryMb, gpuType)
      {
        var g := order[k];
        if g in devices && (gpuType == "" || devices[g].gpuType == gpuType)
           && devices[g].CanAllocate(requiredMemoryMb)
        {
          return Some(g);
        }
      }
      return None;
    }

    method AllocateDevice(g: int, task: TaskId) returns (ok: bool)
      modifies this`devices
      ensures devices == AllocateIn(old(devices), g, task)
      ensures ok == (g in old(devices) && old(devices)[g].CanAllocate(0))
    {
      if g in devices && devices[g].CanAllocate(0) {
        devices := devices[g := devices[g].Allocate(task)];
        return true;
      }
      return false;
    }

    method ReleaseDevice(g: int)
      modifies this`devices
      ensures devices == ReleaseIn(old(devices), Some(g))
    {
      if g in devices {
        devices := devices[g := devices[g].Release()];
      }
    }
  }

  // ---------------------------------------------------------------------------------------------
  // The scheduler
  // ---------------------------------------------------------------------------------------------

  class TaskScheduler {
    const manager: GpuManager
    const maxConcurrent: int
    var pending: seq<Task>
    var running: map<TaskId, Task>
    var completed: map<TaskId, Task>
    var failed: map<TaskId, Task>
    var stats: Stats
    var quotas: map<UserId, Quota>
    var submitted: map<UserId, int>

    ghost function View(): State
      reads this, manager
    {
      State(manager.order, manager.devices, maxConcurrent, multiset(pending), running, completed, failed,
            stats, quotas, submitted)
    }

    ghost predicate Valid()
      reads this
    {
      IsHeap(pending)
    }

    constructor (manager: GpuManager, maxConcurrent: int)
      requires forall g :: g in manager.devices ==> manager.devices[g].state != DeviceAllocated
      ensures this.manager == manager && this.maxConcurrent == maxConcurrent
      ensures Initial(View()) && Valid()
    {
      this.manager, this.maxConcurrent := manager, maxConcurrent;
      pending, running, completed, failed := [], map[], map[], map[];
      stats := Stats(0, 0, 0, 0, 0);
      quotas, submitted := map[], map[];
    }

    /** Ok with the task's id, or Err with its user when the quota is exceeded. */
    method SubmitTask(task: Task) returns (r: Result<TaskId, UserId>)
      requires Valid()
      modifies this
      ensures Valid() && View() == Submit(old(View()), task)
      ensures r == if WithinQuota(old(View()), task) then Ok(task.id) else Err(UserOf(task))
    {
      var user := if task.user == "" then "default" else task.user;
      var used := if user in submitted then submitted[user] else 0;
      var quota := if user in quotas then quotas[user] else DEFAULT_QUOTA;
      if used >= quota.maxTasks || 0.0 >= quota.maxGpuHours * 3600.0 {
        return Err(user);
      }
      pending := HeapPush(pending, task.(status := Queued));
      stats := stats.(pending := stats.pending + 1, total := stats.total + 1);
      submitted := submitted[user := used + 1];
      return Ok(task.id);
    }

    method ReleaseGpuForTask(task: Task)
      modifies manager`devices
      ensures manager.devices == ReleaseIn(old(manager.devices), task.device)
    {
      if task.device.Some? {
        manager.ReleaseDevice(task.device.value);
      }
    }

    /** The queue search of cancel_task. */
    method FindPending(id: TaskId) returns (i: nat)
      ensures i <= |pending|
      ensures i < |pending| ==> pending[i].id == id
      ensures i == |pending| ==> forall k :: 0 <= k < |pending| ==> pending[k].id != id
    {
      i := 0;
      while i < |pending| && pending[i].id != id
        invariant i <= |pending| && forall k :: 0 <= k < i ==> pending[k].id != id
      {
        i := i + 1;
      }
    }

    method CancelWaiting(i: nat)
      requires Valid() && i < |pending|
      modifies this
      ensures Valid() && View() == CancelPending(old(View()), old(pending)[i])
    {
      var task := pending[i];
      DropMultiset(pending, i);
      pending := Heapify(Drop(pending, i));
      failed := failed[task.id := task.(status := Cancelled)];
      stats := stats.(pending := stats.pending - 1, failed := stats.failed + 1);
    }

    method CancelTask(id: TaskId) returns (found: bool)
      requires Valid()
      modifies this, manager`devices
      ensures Valid() && Cancels(old(View()), id, View())
      ensures found == (Waits(old(View()), id) || id in old(running))
    {
      var i := FindPending(id);
      if i < |pending| {
        assert pending[i] in View().pending;
        CancelWaiting(i);
        return true;
      }
      NotWaiting(pending, View(), id);
      if id in running {
        var task := running[id];
        ReleaseGpuForTask(task);
        running := running[id := task.(status := Cancelled, device := None)];
        return true;
      }
      return false;
    }

    method PickFor(task: Task) returns (device: Option<int>)
      ensures device == PickDevice(View(), task)
    {
      device := manager.GetAvailableDevice(task.memoryMb, task.gpuType);
      if device.None? && task.allowFallbackCpu {
        device := manager.GetAvailableDevice(0, "cpu");
      }
    }

    /** The task just popped, leaving rest, starts on device g. */
    method StartOn(task: Task, rest: seq<Task>, g: int)
      requires IsHeap(rest) && multiset(rest) == multiset(pending) - multiset{task}
      modifies this`pending, this`running, this`stats, manager`devices
      ensures pending == rest && manager.devices == AllocateIn(old(manager.devices), g, task.id)
      ensures running == old(running)[task.id := task.(status := Scheduled, device := Some(g))]
      ensures stats == old(stats).(pending := old(stats).pending - 1, running := old(stats).running + 1)
    {
      pending := rest;
      var ok := manager.AllocateDevice(g, task.id);
      running := running[task.id := task.(status := Scheduled, device := Some(g))];
      stats := stats.(pending := stats.pending - 1, running := stats.running + 1);
    }

    /** One turn of the scheduling loop: the head of the queue starts, or goes back for want of a device. */
    method ScheduleHead() returns (device: Option<int>, ghost task: Task)
      requires Valid() && pending != []
      modifies this, manager`devices
      ensures Valid() && IsHead(old(View()).pending, task) && device == PickDevice(old(View()), task)
      ensures View() == if device.Some? then StartOne(old(View()), task, device.value) else old(View())
      ensures device.Some? ==> |pending| == |old(pending)| - 1
    {
      var item, rest := HeapPop(pending);
      task := item;
      device := PickFor(item);
      if device.Some? {
        StartOn(item, rest, device.value);
      } else {
        pending := HeapPush(rest, item);
        assert multiset(pending) == old(multiset(pending));
      }
    }

    /** One pass: as long as there are slots, the head of the queue gets a device, or the pass ends. */
    method SchedulePendingTasks() returns (ghost pass: Pass)
      requires Valid()
      modifies this, manager`devices
      ensures Valid()
      ensures IsPass(pass) && pass.states[0] == old(View()) && Final(pass) == View()
    {
      pass := Pass([View()], []);
      var slots := maxConcurrent - |running|;
      if slots <= 0 {
        return;
      }
      var turns := if slots < |pending| then slots else |pending|;
      var i := 0;
      while i < turns
        invariant 0 <= i <= turns && Valid() && |pass.started| == i
        invariant |pending| >= turns - i && (turns < slots ==> |pending| == turns - i)
        invariant IsStart(pass) && pass.states[0] == old(View()) && Final(pass) == View()
      {
        var device;
        ghost var task;
        device, task := ScheduleHead();
        if device.None? {
          return;
        }
        StartTurn(pass, task, device.value);
        pass := Longer(pass, task, View());
        i := i + 1;
      }
      assert i >= slots || multiset(pending) == multiset{};
    }

    method MarkTaskRunning(id: TaskId)
      requires Valid()
      modifies this
      ensures Valid() && View() == MarkRunning(old(View()), id)
    {
      if id in running {
        running := running[id := running[id].(status := Running)];
      }
    }

    method MarkTaskCompleted(id: TaskId)
      requires Valid()
      modifies this, manager`devices
      ensures Valid() && View() == Complete(old(View()), id)
    {
      if id in running {
        var task := running[id];
        running := running - {id};
        completed := completed[id := task.(status := Completed, device := None)];
        stats := stats.(running := stats.running - 1, completed := stats.completed + 1);
        ReleaseGpuForTask(task);
      }
    }

    method MarkTaskFailed(id: TaskId)
      requires Valid()
      modifies this, manager`devices
      ensures Valid() && View() == Fail(old(View()), id)
    {
      if id in running {
        var task := running[id];
        running := running - {id};
        failed := failed[id := task.(status := Failed, device := None)];
        stats := stats.(running := stats.running - 1, failed := stats.failed + 1);
        ReleaseGpuForTask(task);
      }
    }
  }

  lemma NotWaiting(q: seq<Task>, s: State, id: TaskId)
    requires s.pending == multiset(q) && forall k :: 0 <= k < |q| ==> q[k].id != id
    ensures !Waits(s, id)
  {
    forall t | t in s.pending ensures t.id != id {
      var k :| 0 <= k < |q| && q[k] == t;
    }
  }

  function Longer(p: Pass, t: Task, next: State): Pass {
    Pass(p.states + [next], p.started + [t])
  }

  /** One more turn of a pass. */
  lemma StartTurn(p: Pass, t: Task, g: int)
    requires IsStart(p) && |p.started| < Slots(p.states[0])
    requires CanStart(Final(p), t) && PickDevice(Final(p), t) == Some(g)
    ensures IsStart(Longer(p, t, StartOne(Final(p), t, g)))
  {
    var longer := Longer(p, t, StartOne(Final(p), t, g));
    forall i | 0 <= i < |longer.started| ensures StartsAt(longer, i) {
      if i < |p.started| {
        assert StartsAt(p, i);
      }
    }
  }
}
