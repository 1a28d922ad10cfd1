/** What a dispatch or a release does when nothing interferes. */
module DispatchAlone {
  import opened Hashing
  import opened Dispatch

  function Advanced(sys: System, pid: Pid): System {
    Do(sys, Advance(pid, NoFault))
  }

  /** The system after n steps of one process alone, none of which fails. */
  function RunAlone(sys: System, pid: Pid, n: nat): System
    decreases n
  {
    if n == 0 then sys else RunAlone(Advanced(sys, pid), pid, n - 1)
  }

  ghost predicate Reaches(sys: System, pid: Pid, next: System) {
    exists n: nat :: RunAlone(sys, pid, n) == next
  }

  lemma ReachesNext(sys: System, pid: Pid, next: System)
    requires Reaches(Advanced(sys, pid), pid, next)
    ensures Reaches(sys, pid, next)
  {
    var n: nat :| RunAlone(Advanced(sys, pid), pid, n) == next;
    assert RunAlone(sys, pid, n + 1) == next;
  }

  lemma ReachesHere(sys: System, pid: Pid)
    ensures Reaches(sys, pid, sys)
  {
    assert RunAlone(sys, pid, 0) == sys;
  }

  /** The share is neither locked nor anything but idle without a task. */
  predicate Free(sys: System, share: ShareId) {
    share !in sys.locks && share in sys.shares && sys.shares[share] == ShareRow(Idle, None)
  }

  /** Candidate i is the first free one from place at on. */
  predicate FirstFree(sys: System, candidates: seq<ShareId>, at: nat, i: nat) {
    at <= i < |candidates| && Free(sys, candidates[i]) && forall j :: at <= j < i ==> !Free(sys, candidates[j])
  }

  function At(sys: System, pid: Pid, p: Process): System {
    sys.(processes := sys.processes[pid := p])
  }

  /** Trying a locked share, or one that turns out not to be idle, leads to the next candidate and leaves
      locks, shares and assignments as they were. */
  lemma PassesBy(sys: System, pid: Pid, task: TaskId, candidates: seq<ShareId>, at: nat, next: System)
    requires at < |candidates| && !Free(sys, candidates[at])
    requires pid in sys.processes && sys.processes[pid] == Dispatching(task, candidates, at, Trying)
    requires Reaches(At(sys, pid, Dispatching(task, candidates, at + 1, Trying)), pid, next)
    ensures Reaches(sys, pid, next)
  {
    var share := candidates[at];
    if share !in sys.locks {
      var locked := At(sys, pid, Dispatching(task, candidates, at, Locked)).(locks := sys.locks[share := task]);
      LockedMisses(sys, locked, pid, task, candidates, at, next);
      assert Advanced(sys, pid) == locked;
    } else {
      assert Advanced(sys, pid) == At(sys, pid, Dispatching(task, candidates, at + 1, Trying));
    }
    ReachesNext(sys, pid, next);
  }

  lemma LockedMisses(sys: System, locked: System, pid: Pid, task: TaskId, candidates: seq<ShareId>, at: nat,
                     next: System)
    requires at < |candidates| && candidates[at] !in sys.locks && !Free(sys, candidates[at])
    requires locked == At(sys, pid, Dispatching(task, candidates, at, Locked)).(locks := sys.locks[candidates[at] := task])
    requires Reaches(At(sys, pid, Dispatching(task, candidates, at + 1, Trying)), pid, next)
    ensures Reaches(locked, pid, next)
  {
    var missed := At(locked, pid, Dispatching(task, candidates, at, Missed));
    assert sys.locks[candidates[at] := task] - {candidates[at]} == sys.locks;
    assert At(missed, pid, Dispatching(task, candidates, at + 1, Trying)).(locks := missed.locks - {candidates[at]})
        == At(sys, pid, Dispatching(task, candidates, at + 1, Trying));
    MissedMoves(missed, pid, task, candidates, at, next);
    assert Advanced(locked, pid) == missed;
    ReachesNext(locked, pid, next);
  }

  lemma MissedMoves(sys: System, pid: Pid, task: TaskId, candidates: seq<ShareId>, at: nat, next: System)
    requires at < |candidates| && candidates[at] in sys.locks && sys.locks[candidates[at]] == task
    requires pid in sys.processes && sys.processes[pid] == Dispatching(task, candidates, at, Missed)
    requires Reaches(At(sys, pid, Dispatching(task, candidates, at + 1, Trying)).(locks := sys.locks - {candidates[at]}),
                     pid, next)
    ensures Reaches(sys, pid, next)
  {
    var deleting := At(sys, pid, Dispatching(task, candidates, at, MissedDeleting));
    assert Advanced(deleting, pid)
        == At(sys, pid, Dispatching(task, candidates, at + 1, Trying)).(locks := sys.locks - {candidates[at]});
    ReachesNext(deleting, pid, next);
    assert Advanced(sys, pid) == deleting;
    ReachesNext(sys, pid, next);
  }

  /** Task and share as a dispatch leaves them, its process ended. */
  function Granted(sys: System, pid: Pid, task: TaskId, candidates: seq<ShareId>, i: nat): System
    requires i < |candidates|
  {
    System(sys.locks[candidates[i] := task],
           sys.shares[candidates[i] := ShareRow(Allocated, Some(task))],
           sys.assignments + [Assignment(task, candidates[i], false)],
           sys.processes[pid := Dispatching(task, candidates, i, Ended(AssignedTo(|sys.assignments|)))])
  }

  lemma Takes(sys: System, pid: Pid, task: TaskId, candidates: seq<ShareId>, at: nat)
    requires at < |candidates| && Free(sys, candidates[at])
    requires pid in sys.processes && sys.processes[pid] == Dispatching(task, candidates, at, Trying)
    ensures Reaches(sys, pid, Granted(sys, pid, task, candidates, at))
  {
    var share := candidates[at];
    var locked := At(sys, pid, Dispatching(task, candidates, at, Locked)).(locks := sys.locks[share := task]);
    var updated := At(locked, pid, Dispatching(task, candidates, at, Updated))
                   .(shares := sys.shares[share := ShareRow(Allocated, Some(task))]);
    var done := Granted(sys, pid, task, candidates, at);
    ReachesHere(done, pid);
    assert Advanced(updated, pid) == done;
    ReachesNext(updated, pid, done);
    assert Advanced(locked, pid) == updated;
    ReachesNext(locked, pid, done);
    assert Advanced(sys, pid) == locked;
    ReachesNext(sys, pid, done);
  }

  /** A dispatch alone assigns its task to the first free candidate, and to nothing else. */
  lemma {:induction false} TakesFirstFree(sys: System, pid: Pid, task: TaskId, candidates: seq<ShareId>, at: nat, i: nat)
    requires FirstFree(sys, candidates, at, i)
    requires pid in sys.processes && sys.processes[pid] == Dispatching(task, candidates, at, Trying)
    ensures Reaches(sys, pid, Granted(sys, pid, task, candidates, i))
    decreases i - at
  {
    if at == i {
      Takes(sys, pid, task, candidates, at);
    } else {
      var later := At(sys, pid, Dispatching(task, candidates, at + 1, Trying));
      TakesFirstFree(later, pid, task, candidates, at + 1, i);
      assert Granted(later, pid, task, candidates, i) == Granted(sys, pid, task, candidates, i);
      PassesBy(sys, pid, task, candidates, at, Granted(sys, pid, task, candidates, i));
    }
  }

  /** With no free candidate a dispatch alone ends without a lock and changes nothing. */
  lemma {:induction false} TakesNothing(sys: System, pid: Pid, task: TaskId, candidates: seq<ShareId>, at: nat)
    requires at <= |candidates| && forall j :: at <= j < |candidates| ==> !Free(sys, candidates[j])
    requires pid in sys.processes && sys.processes[pid] == Dispatching(task, candidates, at, Trying)
    ensures Reaches(sys, pid, At(sys, pid, Dispatching(task, candidates, |candidates|, Ended(NoLock))))
    decreases |candidates| - at
  {
    var done := At(sys, pid, Dispatching(task, candidates, |candidates|, Ended(NoLock)));
    if at == |candidates| {
      ReachesHere(done, pid);
      assert Advanced(sys, pid) == done;
      ReachesNext(sys, pid, done);
    } else {
      var later := At(sys, pid, Dispatching(task, candidates, at + 1, Trying));
      TakesNothing(later, pid, task, candidates, at + 1);
      assert At(later, pid, Dispatching(task, candidates, |candidates|, Ended(NoLock))) == done;
      PassesBy(sys, pid, task, candidates, at, done);
    }
  }

  /** A release alone of an assignment whose task has the lock deletes the lock, marks the assignment released
      and the share idle. */
  lemma ReleasesAlone(sys: System, pid: Pid, i: nat)
    requires i < |sys.assignments| && pid in sys.processes
    requires sys.processes[pid] == Releasing(sys.assignments[i].task, i)
    requires sys.assignments[i].share in sys.locks && sys.locks[sys.assignments[i].share] == sys.assignments[i].task
    requires sys.assignments[i].share in sys.shares
    ensures var a := sys.assignments[i];
            Reaches(sys, pid, System(sys.locks - {a.share}, sys.shares[a.share := ShareRow(Idle, None)],
                                     sys.assignments[i := a.(released := true)],
                                     sys.processes[pid := Released(a.task)]))
  {
    var a := sys.assignments[i];
    var deleting := At(sys, pid, Deleting(a.task, i));
    var idling := System(sys.locks - {a.share}, sys.shares, sys.assignments[i := a.(released := true)],
                         sys.processes[pid := Idling(a.task, i)]);
    var done := System(sys.locks - {a.share}, sys.shares[a.share := ShareRow(Idle, None)],
                       sys.assignments[i := a.(released := true)], sys.processes[pid := Released(a.task)]);
    ReachesHere(done, pid);
    assert Advanced(idling, pid) == done;
    ReachesNext(idling, pid, done);
    assert Advanced(deleting, pid) == idling;
    ReachesNext(deleting, pid, done);
    assert Advanced(sys, pid) == deleting;
    ReachesNext(sys, pid, done);
  }

  /** A release undoes a dispatch: locks and shares are again what they were before it. */
  lemma ReleaseUndoes(sys: System, pid: Pid, task: TaskId, candidates: seq<ShareId>, i: nat, other: Pid)
    requires FirstFree(sys, candidates, 0, i) && pid != other
    requires pid in sys.processes && sys.processes[pid] == Dispatching(task, candidates, 0, Trying)
    ensures var granted := Granted(sys, pid, task, candidates, i);
            && Reaches(sys, pid, granted)
            && exists done :: Reaches(At(granted, other, Releasing(task, |sys.assignments|)), other, done)
                              && done.locks == sys.locks && done.shares == sys.shares
                              && done.assignments == sys.assignments + [Assignment(task, candidates[i], true)]
  {
    TakesFirstFree(sys, pid, task, candidates, 0, i);
    var n, share := |sys.assignments|, candidates[i];
    var start := At(Granted(sys, pid, task, candidates, i), other, Releasing(task, n));
    ReleasesAlone(start, other, n);
    var a := start.assignments[n];
    var done := System(start.locks - {share}, start.shares[share := ShareRow(Idle, None)],
                       start.assignments[n := a.(released := true)], start.processes[other := Released(task)]);
    assert sys.locks[share := task] - {share} == sys.locks;
    assert done.shares == sys.shares;
    assert Reaches(start, other, done);
  }

  /** When marking the share or creating the assignment raises, before or after its effect, the dispatch alone
      gives the lock back, leaves the share idle and no assignment, and ends with the exception. */
  lemma RollsBack(sys: System, pid: Pid, task: TaskId, candidates: seq<ShareId>, at: nat, stage: Stage, fault: Fault)
    requires at < |candidates| && stage in {Locked, Updated} && fault != NoFault && candidates[at] in sys.shares
    requires pid in sys.processes && sys.processes[pid] == Dispatching(task, candidates, at, stage)
    requires candidates[at] in sys.locks && sys.locks[candidates[at]] == task
    ensures Reaches(Do(sys, Advance(pid, fault)), pid,
                    System(sys.locks - {candidates[at]}, sys.shares[candidates[at] := ShareRow(Idle, None)],
                           sys.assignments,
                           sys.processes[pid := Dispatching(task, candidates, at, Ended(Raised))]))
  {
    var share, next := candidates[at], Do(sys, Advance(pid, fault));
    BrokenEnds(next, pid, task, candidates, at);
    assert next.shares[share := ShareRow(Idle, None)] == sys.shares[share := ShareRow(Idle, None)];
    assert next.processes[pid := Dispatching(task, candidates, at, Ended(Raised))]
        == sys.processes[pid := Dispatching(task, candidates, at, Ended(Raised))];
  }

  lemma BrokenEnds(sys: System, pid: Pid, task: TaskId, candidates: seq<ShareId>, at: nat)
    requires at < |candidates| && candidates[at] in sys.shares
    requires pid in sys.processes && sys.processes[pid] == Dispatching(task, candidates, at, Broken)
    requires candidates[at] in sys.locks && sys.locks[candidates[at]] == task
    ensures Reaches(sys, pid, System(sys.locks - {candidates[at]}, sys.shares[candidates[at] := ShareRow(Idle, None)],
                                     sys.assignments,
                                     sys.processes[pid := Dispatching(task, candidates, at, Ended(Raised))]))
  {
    var share := candidates[at];
    var deleting := At(sys, pid, Dispatching(task, candidates, at, BrokenDeleting));
    var unlocked := At(sys, pid, Dispatching(task, candidates, at, Unlocked)).(locks := sys.locks - {share});
    var done := At(unlocked, pid, Dispatching(task, candidates, at, Ended(Raised)))
                .(shares := sys.shares[share := ShareRow(Idle, None)]);
    ReachesHere(done, pid);
    assert Advanced(unlocked, pid) == done;
    ReachesNext(unlocked, pid, done);
    assert Advanced(deleting, pid) == unlocked;
    ReachesNext(deleting, pid, done);
    assert Advanced(sys, pid) == deleting;
    ReachesNext(sys, pid, done);
  }

  /** A release alone whose task does not have the lock leaves all locks alone; it still marks the assignment
      released and the share idle. */
  lemma ReleasesWithoutLock(sys: System, pid: Pid, i: nat)
    requires i < |sys.assignments| && pid in sys.processes
    requires sys.processes[pid] == Releasing(sys.assignments[i].task, i)
    requires sys.assignments[i].share in sys.locks ==>
               sys.locks[sys.assignments[i].share] != sys.assignments[i].task
    requires sys.assignments[i].share in sys.shares
    ensures var a := sys.assignments[i];
            Reaches(sys, pid, System(sys.locks, sys.shares[a.share := ShareRow(Idle, None)],
                                     sys.assignments[i := a.(released := true)],
                                     sys.processes[pid := Released(a.task)]))
  {
    var a := sys.assignments[i];
    var idling := System(sys.locks, sys.shares, sys.assignments[i := a.(released := true)],
                         sys.processes[pid := Idling(a.task, i)]);
    var done := System(sys.locks, sys.shares[a.share := ShareRow(Idle, None)],
                       sys.assignments[i := a.(released := true)], sys.processes[pid := Released(a.task)]);
    ReachesHere(done, pid);
    assert Advanced(idling, pid) == done;
    ReachesNext(idling, pid, done);
    assert Advanced(sys, pid) == idling;
    ReachesNext(sys, pid, done);
  }
}
