/** Room dispatch (rooms/dispatch.py with vpn/remote_gpu_lock.py and vpn/repositories.py). */
module Dispatch {
  import opened Hashing

  type TaskId = string
  type ShareId = string
  type Pid = nat

  // ---------------------------------------------------------------------------------------------
  // The protocol: concurrent dispatchers try their candidates under one exclusive lock per share, and
  // releases give shares back; the atomic steps of all of them interleave freely.  Giving a lock back
  // takes two steps: reading its holder, and deleting it if that was the task
  // ---------------------------------------------------------------------------------------------

  datatype ShareState = Idle | Allocated | OtherState(name: string)

  /** What the share table says of a share. */
  datatype ShareRow = ShareRow(state: ShareState, currentTask: Option<TaskId>)

  /** An assignment, and whether a release has given its lock back. */
  datatype Assignment = Assignment(task: TaskId, share: ShareId, released: bool)

  datatype Outcome = AssignedTo(index: nat) | NoLock | Raised

  /** Where a dispatcher stands with the candidate it is at. */
  datatype Stage =
    | Trying             // about to acquire the lock
    | Locked             // lock acquired, about to mark the share allocated
    | Updated            // share marked, about to create the assignment
    | Missed             // the share was not idle, about to read the lock's holder
    | MissedDeleting     // the holder was the task, about to delete the lock
    | Broken             // an exception, about to read the lock's holder
    | BrokenDeleting     // the holder was the task, about to delete the lock
    | Unlocked           // lock released after an exception, about to mark the share idle
    | Ended(outcome: Outcome)

  datatype Process =
    | Dispatching(task: TaskId, candidates: seq<ShareId>, at: nat, stage: Stage)
    | Releasing(task: TaskId, index: nat)  // has read the assignment, about to read the lock's holder
    | Deleting(task: TaskId, index: nat)   // the holder was the task, about to delete the lock
    | Idling(task: TaskId, index: nat)     // done with the lock, about to mark the share idle
    | Released(task: TaskId)

  datatype System = System(locks: map<ShareId, TaskId>, shares: map<ShareId, ShareRow>,
                           assignments: seq<Assignment>, processes: map<Pid, Process>)

  /** A database operation may fail before or after its effect. */
  datatype Fault = NoFault | FailsBefore | FailsAfter

  datatype Action =
    | StartDispatch(pid: Pid, task: TaskId, candidates: seq<ShareId>)
    | StartRelease(pid: Pid, task: TaskId)
    | Advance(pid: Pid, fault: Fault)
    | Report(share: ShareId, row: ShareRow)  // anyone else writing the share table

  predicate HeldBy(locks: map<ShareId, TaskId>, share: ShareId, task: TaskId) {
    share in locks && locks[share] == task
  }

  function MarkIdle(shares: map<ShareId, ShareRow>, share: ShareId): map<ShareId, ShareRow> {
    if share in shares then shares[share := ShareRow(Idle, None)] else shares
  }

  predicate Markable(shares: map<ShareId, ShareRow>, share: ShareId) {
    share in shares && shares[share] == ShareRow(Idle, None)
  }

  /** The latest assignment of a task, or the number of assignments. */
  function Latest(assignments: seq<Assignment>, task: TaskId): (i: nat)
    ensures i <= |assignments|
    ensures i < |assignments| ==> assignments[i].task == task
    ensures forall j :: i < j < |assignments| ==> assignments[j].task != task
    ensures i == |assignments| ==> forall j :: 0 <= j < |assignments| ==> assignments[j].task != task
  {
    if assignments == [] then 0
    else
      var n := |assignments| - 1;
      if assignments[n].task == task then n
      else
        var i := Latest(assignments[..n], task);
        if i == n then n + 1 else i
  }

  function AdvanceDispatch(sys: System, pid: Pid, p: Process, fault: Fault): System
    requires p.Dispatching?
  {
    if p.stage.Ended? then sys
    else if p.at >= |p.candidates| then sys.(processes := sys.processes[pid := p.(stage := Ended(NoLock))])
    else
      var share := p.candidates[p.at];
      match p.stage
      case Trying =>
        if share in sys.locks then sys.(processes := sys.processes[pid := p.(at := p.at + 1)])
        else sys.(locks := sys.locks[share := p.task],
                  processes := sys.processes[pid := p.(stage := Locked)])
      case Locked =>
        if fault == FailsBefore || !Markable(sys.shares, share) then
          sys.(processes := sys.processes[pid := p.(stage := if fault == NoFault then Missed else Broken)])
        else
          sys.(shares := sys.shares[share := ShareRow(Allocated, Some(p.task))],
               processes := sys.processes[pid := p.(stage := if fault == NoFault then Updated else Broken)])
      case Updated =>
        if fault != NoFault then sys.(processes := sys.processes[pid := p.(stage := Broken)])
        else
          sys.(assignments := sys.assignments + [Assignment(p.task, share, false)],
               processes := sys.processes[pid := p.(stage := Ended(AssignedTo(|sys.assignments|)))])
      case Missed =>
        sys.(processes := sys.processes[pid :=
          if HeldBy(sys.locks, share, p.task) then p.(stage := MissedDeleting)
          else p.(at := p.at + 1, stage := Trying)])
      case MissedDeleting =>
        sys.(locks := sys.locks - {share},
             processes := sys.processes[pid := p.(at := p.at + 1, stage := Trying)])
      case Broken =>
        sys.(processes := sys.processes[pid :=
          p.(stage := if HeldBy(sys.locks, share, p.task) then BrokenDeleting else Unlocked)])
      case BrokenDeleting =>
        sys.(locks := sys.locks - {share},
             processes := sys.processes[pid := p.(stage := Unlocked)])
      case Unlocked =>
        sys.(shares := if fault == FailsBefore then sys.shares else MarkIdle(sys.shares, share),
             processes := sys.processes[pid := p.(stage := Ended(Raised))])
  }

  function AdvanceRelease(sys: System, pid: Pid, p: Process, fault: Fault): System
    requires p.Releasing? || p.Deleting? || p.Idling?
  {
    if p.index >= |sys.assignments| then sys
    else
      var a := sys.assignments[p.index];
      if p.Releasing? && HeldBy(sys.locks, a.share, p.task) then
        sys.(processes := sys.processes[pid := Deleting(p.task, p.index)])
      else if p.Idling? then
        sys.(shares := if fault == FailsBefore then sys.shares else MarkIdle(sys.shares, a.share),
             processes := sys.processes[pid := Released(p.task)])
      else
        sys.(locks := if p.Deleting? then sys.locks - {a.share} else sys.locks,
             assignments := sys.assignments[p.index := a.(released := true)],
             processes := sys.processes[pid := Idling(p.task, p.index)])
  }

  /** One atomic step.  An action that does not apply changes nothing. */
  function Do(sys: System, action: Action): System {
    match action
    case StartDispatch(pid, task, candidates) =>
      if pid in sys.processes then sys
      else sys.(processes := sys.processes[pid := Dispatching(task, candidates, 0, Trying)])
    case StartRelease(pid, task) =>
      if pid in sys.processes then sys
      else
        var i := Latest(sys.assignments, task);
        sys.(processes := sys.processes[pid := if i == |sys.assignments| then Released(task)
                                               else Releasing(task, i)])
    case Advance(pid, fault) =>
      if pid !in sys.processes then sys
      else
        var p := sys.processes[pid];
        if p.Dispatching? then AdvanceDispatch(sys, pid, p, fault)
        else if p.Released? then sys
        else AdvanceRelease(sys, pid, p, fault)
    case Report(share, row) => sys.(shares := sys.shares[share := row])
  }

  // ---------------------------------------------------------------------------------------------
  // What callers may do
  // ---------------------------------------------------------------------------------------------

  /** The tasks a release of which may run while a dispatch of the same task runs, the tasks whose
      assignments may be released again after a release, and those whose assignments may be released by
      two callers at once. */
  datatype Policy = Policy(overlap: set<TaskId>, repeat: set<TaskId>, concurrent: set<TaskId>)

  ghost predicate DispatchRuns(sys: System, task: TaskId) {
    exists pid :: pid in sys.processes && sys.processes[pid].Dispatching?
                  && sys.processes[pid].task == task && !sys.processes[pid].stage.Ended?
  }

  ghost predicate ReleaseRuns(sys: System, task: TaskId) {
    exists pid :: pid in sys.processes && sys.processes[pid].task == task && Gives(sys.processes[pid])
  }

  /** The process is a release that has not ended. */
  predicate Gives(p: Process) {
    p.Releasing? || p.Deleting? || p.Idling?
  }

  /** The release is not done with the lock of assignment i. */
  predicate Frees(p: Process, i: nat) {
    (p.Releasing? || p.Deleting?) && p.index == i
  }

  ghost predicate BeingReleased(sys: System, i: nat) {
    exists pid :: pid in sys.processes && Frees(sys.processes[pid], i)
  }

  ghost predicate Allowed(policy: Policy, sys: System, action: Action) {
    match action
    case StartDispatch(_, task, _) => task in policy.overlap || !ReleaseRuns(sys, task)
    case StartRelease(_, task) =>
      var i := Latest(sys.assignments, task);
      && (task in policy.overlap || !DispatchRuns(sys, task))
      && (i < |sys.assignments| && sys.assignments[i].released ==> task in policy.repeat)
      && (i < |sys.assignments| && BeingReleased(sys, i) ==> task in policy.concurrent)
    case _ => true
  }

  function Run(sys: System, actions: seq<Action>): System {
    if actions == [] then sys
    else
      var n := |actions| - 1;
      Do(Run(sys, actions[..n]), actions[n])
  }

  /** Every action is allowed when it is taken. */
  ghost predicate Obeys(policy: Policy, sys: System, actions: seq<Action>) {
    actions == []
    || var n := |actions| - 1;
       Obeys(policy, sys, actions[..n]) && Allowed(policy, Run(sys, actions[..n]), actions[n])
  }

  function Fresh(shares: map<ShareId, ShareRow>): System {
    System(map[], shares, [], map[])
  }

  ghost predicate Reachable(policy: Policy, sys: System) {
    exists shares: map<ShareId, ShareRow>, actions: seq<Action> ::
      Obeys(policy, Fresh(shares), actions) && sys == Run(Fresh(shares), actions)
  }

  /** No share has two unreleased assignments. */
  ghost predicate Exclusive(sys: System) {
    forall i, j :: 0 <= i < j < |sys.assignments| ==>
      !sys.assignments[i].released && !sys.assignments[j].released ==>
      sys.assignments[i].share != sys.assignments[j].share
  }

  // ---------------------------------------------------------------------------------------------
  // The invariant
  // ---------------------------------------------------------------------------------------------

  /** The dispatcher has acquired the lock of its candidate and not given it back. */
  predicate Holds(p: Process, share: ShareId) {
    && p.Dispatching? && p.at < |p.candidates| && p.candidates[p.at] == share
    && (p.stage.Locked? || p.stage.Updated? || p.stage.Missed? || p.stage.MissedDeleting? || p.stage.Broken?
        || p.stage.BrokenDeleting?)
  }

  ghost predicate HolderSound(sys: System, pid: Pid, share: ShareId)
    requires pid in sys.processes
  {
    Holds(sys.processes[pid], share) ==>
      && share in sys.locks && sys.locks[share] == sys.processes[pid].task
      && (forall i :: 0 <= i < |sys.assignments| && sys.assignments[i].share == share ==>
            sys.assignments[i].released)
      && (forall other :: other in sys.processes && Holds(sys.processes[other], share) ==> other == pid)
  }

  /** Holders own their locks alone. */
  ghost predicate Holders(sys: System) {
    forall pid, share {:trigger HolderSound(sys, pid, share)} :: pid in sys.processes ==>
      HolderSound(sys, pid, share)
  }

  /** Unreleased assignments own their locks, and only the latest of a share may be unreleased. */
  ghost predicate Assignments(sys: System) {
    && (forall i :: 0 <= i < |sys.assignments| && !sys.assignments[i].released ==>
          sys.assignments[i].share in sys.locks
          && sys.locks[sys.assignments[i].share] == sys.assignments[i].task)
    && (forall i, j :: 0 <= i < j < |sys.assignments| ==>
          sys.assignments[i].share == sys.assignments[j].share ==> sys.assignments[i].released)
  }

  ghost predicate Owned(sys: System, share: ShareId)
    requires share in sys.locks
  {
    || (exists i :: 0 <= i < |sys.assignments| && !sys.assignments[i].released
                    && sys.assignments[i].share == share && sys.assignments[i].task == sys.locks[share])
    || (exists pid :: pid in sys.processes && Holds(sys.processes[pid], share)
                      && sys.processes[pid].task == sys.locks[share])
  }

  ghost predicate AllOwned(sys: System) {
    forall share {:trigger Owned(sys, share)} :: share in sys.locks ==> Owned(sys, share)
  }

  /** What mutual exclusion takes of the callers. */
  ghost predicate Careful(policy: Policy) {
    policy.concurrent == {} && policy.overlap !! policy.repeat
  }

  ghost predicate ReleaseSound(policy: Policy, sys: System, pid: Pid)
    requires pid in sys.processes
  {
    var p := sys.processes[pid];
    && (Gives(p) ==> p.index < |sys.assignments| && sys.assignments[p.index].task == p.task)
    && (p.Releasing? && p.task !in policy.overlap ==> p.index == Latest(sys.assignments, p.task))
    && (p.Releasing? && p.task !in policy.repeat ==> !sys.assignments[p.index].released)
    && (p.Deleting? ==> !sys.assignments[p.index].released)
    && (p.Releasing? || p.Deleting? ==>
          forall other :: other in sys.processes ==> Frees(sys.processes[other], p.index) ==> other == pid)
  }

  ghost predicate Releases(policy: Policy, sys: System) {
    && (forall pid {:trigger ReleaseSound(policy, sys, pid)} :: pid in sys.processes ==>
          ReleaseSound(policy, sys, pid))
    && forall task {:trigger DispatchRuns(sys, task)} ::
         (task !in policy.overlap && ReleaseRuns(sys, task)) ==> !DispatchRuns(sys, task)
  }

  ghost predicate Inv(policy: Policy, sys: System) {
    Holders(sys) && Assignments(sys) && AllOwned(sys) && Releases(policy, sys)
  }

  // ---------------------------------------------------------------------------------------------
  // Steps that move no lock
  // ---------------------------------------------------------------------------------------------

  function With(sys: System, pid: Pid, q: Process): System {
    sys.(processes := sys.processes[pid := q])
  }

  /** The process holds what it held. */
  ghost predicate SameHold(sys: System, pid: Pid, q: Process) {
    && (forall share :: Holds(q, share) <==> pid in sys.processes && Holds(sys.processes[pid], share))
    && (pid in sys.processes ==> q.task == sys.processes[pid].task)
  }

  lemma QuietKeeps(sys: System, pid: Pid, q: Process)
    requires Holders(sys) && Assignments(sys) && AllOwned(sys) && SameHold(sys, pid, q)
    ensures var next := With(sys, pid, q);
            Holders(next) && Assignments(next) && AllOwned(next)
  {
    var next := With(sys, pid, q);
    forall other, share | other in next.processes ensures HolderSound(next, other, share) {
      if other in sys.processes {
        assert HolderSound(sys, other, share);
      }
    }
    forall share | share in next.locks ensures Owned(next, share) {
      assert Owned(sys, share);
      if other :| other in sys.processes && Holds(sys.processes[other], share)
                  && sys.processes[other].task == sys.locks[share]
      {
        assert Holds(next.processes[other], share);
      }
    }
  }

  // ---------------------------------------------------------------------------------------------
  // Acquiring, giving back, assigning
  // ---------------------------------------------------------------------------------------------

  lemma AcquireKeeps(sys: System, pid: Pid, share: ShareId, q: Process)
    requires Holders(sys) && Assignments(sys) && AllOwned(sys)
    requires pid in sys.processes && share !in sys.locks && q.task == sys.processes[pid].task
    requires forall x :: !Holds(sys.processes[pid], x)
    requires forall x :: Holds(q, x) <==> x == share
    ensures var next := With(sys.(locks := sys.locks[share := q.task]), pid, q);
            Holders(next) && Assignments(next) && AllOwned(next)
  {
    var next := With(sys.(locks := sys.locks[share := q.task]), pid, q);
    forall other | other in sys.processes ensures !Holds(sys.processes[other], share) {
      assert HolderSound(sys, other, share);
    }
    forall other, x | other in next.processes ensures HolderSound(next, other, x) {
      assert HolderSound(sys, other, x);
    }
    forall x | x in next.locks ensures Owned(next, x) {
      if x == share {
        assert Holds(next.processes[pid], share);
      } else {
        assert Owned(sys, x);
        if other :| other in sys.processes && Holds(sys.processes[other], x)
                    && sys.processes[other].task == sys.locks[x]
        {
          assert Holds(next.processes[other], x);
        }
      }
    }
  }

  lemma GiveBackKeeps(sys: System, pid: Pid, share: ShareId, q: Process)
    requires Holders(sys) && Assignments(sys) && AllOwned(sys)
    requires pid in sys.processes && Holds(sys.processes[pid], share) && q.task == sys.processes[pid].task
    requires forall x :: !Holds(q, x)
    ensures var next := With(sys.(locks := sys.locks - {share}), pid, q);
            Holders(next) && Assignments(next) && AllOwned(next)
  {
    var next := With(sys.(locks := sys.locks - {share}), pid, q);
    assert HolderSound(sys, pid, share);
    forall other, x | other in next.processes ensures HolderSound(next, other, x) {
      assert HolderSound(sys, other, x);
    }
    forall x | x in next.locks ensures Owned(next, x) {
      assert Owned(sys, x);
      if other :| other in sys.processes && Holds(sys.processes[other], x)
                  && sys.processes[other].task == sys.locks[x]
      {
        assert Holds(next.processes[other], x);
      }
    }
  }

  lemma AssignKeeps(sys: System, pid: Pid, share: ShareId, q: Process)
    requires Holders(sys) && Assignments(sys) && AllOwned(sys)
    requires pid in sys.processes && Holds(sys.processes[pid], share) && q.task == sys.processes[pid].task
    requires forall x :: !Holds(q, x)
    ensures var next := With(sys.(assignments := sys.assignments + [Assignment(q.task, share, false)]), pid, q);
            Holders(next) && Assignments(next) && AllOwned(next)
  {
    var next := With(sys.(assignments := sys.assignments + [Assignment(q.task, share, false)]), pid, q);
    assert HolderSound(sys, pid, share);
    forall other, x | other in next.processes ensures HolderSound(next, other, x) {
      assert HolderSound(sys, other, x);
    }
    forall x | x in next.locks ensures Owned(next, x) {
      AssignOwned(sys, pid, share, q, x);
    }
  }

  lemma AssignOwned(sys: System, pid: Pid, share: ShareId, q: Process, x: ShareId)
    requires Holders(sys) && pid in sys.processes && Holds(sys.processes[pid], share)
    requires q.task == sys.processes[pid].task && x in sys.locks && Owned(sys, x)
    ensures Owned(With(sys.(assignments := sys.assignments + [Assignment(q.task, share, false)]), pid, q), x)
  {
    var next := With(sys.(assignments := sys.assignments + [Assignment(q.task, share, false)]), pid, q);
    var n := |sys.assignments|;
    assert HolderSound(sys, pid, share);
    assert next.assignments[n] == Assignment(q.task, share, false);
    if i :| 0 <= i < n && !sys.assignments[i].released && sys.assignments[i].share == x
            && sys.assignments[i].task == sys.locks[x]
    {
      assert next.assignments[i] == sys.assignments[i];
    } else {
      var other :| other in sys.processes && Holds(sys.processes[other], x)
                   && sys.processes[other].task == sys.locks[x];
      assert other != pid ==> Holds(next.processes[other], x);
    }
  }

  // ---------------------------------------------------------------------------------------------
  // Releasing
  // ---------------------------------------------------------------------------------------------

  function DeletedAt(sys: System, pid: Pid, i: nat): System
    requires i < |sys.assignments| && pid in sys.processes
  {
    var a := sys.assignments[i];
    With(sys.(locks := sys.locks - {a.share}, assignments := sys.assignments[i := a.(released := true)]),
         pid, Idling(sys.processes[pid].task, i))
  }

  /** If the task holds the lock of the share, it holds it for assignment i. */
  ghost predicate Rightful(sys: System, i: nat)
    requires i < |sys.assignments|
  {
    var a := sys.assignments[i];
    HeldBy(sys.locks, a.share, a.task) ==> !a.released
  }

  /** A release that reads its own task as the holder, or is about to delete the lock it read, has before
      it the lock of the assignment it was called for. */
  lemma ReleaseRightful(policy: Policy, sys: System, pid: Pid)
    requires Inv(policy, sys) && Careful(policy)
    requires pid in sys.processes && (sys.processes[pid].Releasing? || sys.processes[pid].Deleting?)
    ensures sys.processes[pid].index < |sys.assignments| && Rightful(sys, sys.processes[pid].index)
    ensures var a := sys.assignments[sys.processes[pid].index];
            && a.task == sys.processes[pid].task
            && (sys.processes[pid].Deleting? ==> !a.released && HeldBy(sys.locks, a.share, a.task))
  {
    var p := sys.processes[pid];
    assert ReleaseSound(policy, sys, pid);
    var a := sys.assignments[p.index];
    if p.Releasing? && p.task !in policy.overlap && HeldBy(sys.locks, a.share, a.task) {
      assert Gives(p) && ReleaseRuns(sys, p.task) && !DispatchRuns(sys, p.task);
      assert Owned(sys, a.share);
      var j :| 0 <= j < |sys.assignments| && !sys.assignments[j].released
               && sys.assignments[j].share == a.share && sys.assignments[j].task == a.task;
      assert j <= p.index;
    }
  }

  lemma DeleteKeeps(sys: System, pid: Pid, i: nat)
    requires Holders(sys) && Assignments(sys) && AllOwned(sys)
    requires pid in sys.processes && sys.processes[pid].Deleting?
    requires i < |sys.assignments| && !sys.assignments[i].released
    ensures var next := DeletedAt(sys, pid, i);
            Holders(next) && Assignments(next) && AllOwned(next)
  {
    var next := DeletedAt(sys, pid, i);
    forall other, x | other in next.processes ensures HolderSound(next, other, x) {
      assert HolderSound(sys, other, x);
    }
    forall x | x in next.locks ensures Owned(next, x) {
      assert Owned(sys, x);
      if j :| 0 <= j < |sys.assignments| && !sys.assignments[j].released && sys.assignments[j].share == x
              && sys.assignments[j].task == sys.locks[x]
      {
        assert j != i && next.assignments[j] == sys.assignments[j];
      } else {
        var other :| other in sys.processes && Holds(sys.processes[other], x)
                     && sys.processes[other].task == sys.locks[x];
        assert Holds(next.processes[other], x);
      }
    }
  }

  // ---------------------------------------------------------------------------------------------
  // Releases under way
  // ---------------------------------------------------------------------------------------------

  lemma LatestAppend(assignments: seq<Assignment>, a: Assignment, task: TaskId)
    ensures a.task != task && Latest(assignments, task) < |assignments| ==>
              Latest(assignments + [a], task) == Latest(assignments, task)
  {
    assert (assignments + [a])[..|assignments|] == assignments;
  }

  lemma LatestSame(a: seq<Assignment>, b: seq<Assignment>, task: TaskId)
    requires |a| == |b| && forall k :: 0 <= k < |a| ==> a[k].task == b[k].task
    ensures Latest(a, task) == Latest(b, task)
  {
  }

  ghost predicate Dispatches(p: Process) {
    p.Dispatching? && !p.stage.Ended?
  }

  /** A step of a running dispatch. */
  lemma DispatchKeepsReleases(policy: Policy, sys: System, next: System, pid: Pid, q: Process)
    requires Releases(policy, sys) && pid in sys.processes && Dispatches(sys.processes[pid])
    requires q.Dispatching? && q.task == sys.processes[pid].task
    requires next.processes == sys.processes[pid := q]
    requires next.assignments == sys.assignments
             || exists a: Assignment :: a.task == q.task && next.assignments == sys.assignments + [a]
    ensures Releases(policy, next)
  {
    assert DispatchRuns(sys, q.task);
    forall other | other in next.processes ensures ReleaseSound(policy, next, other) {
      if other != pid {
        assert ReleaseSound(policy, sys, other);
        var p := sys.processes[other];
        if p.Releasing? && p.task !in policy.overlap {
          assert Gives(p);
          assert ReleaseRuns(sys, p.task) && p.task != q.task;
        }
        if next.assignments != sys.assignments {
          var a: Assignment :| a.task == q.task && next.assignments == sys.assignments + [a];
          LatestAppend(sys.assignments, a, p.task);
        }
      }
    }
    forall task | task !in policy.overlap && ReleaseRuns(next, task) ensures !DispatchRuns(next, task) {
      RunsBefore(sys, next, pid, q, task);
    }
  }

  lemma RunsBefore(sys: System, next: System, pid: Pid, q: Process, task: TaskId)
    requires pid in sys.processes && Dispatches(sys.processes[pid])
    requires q.Dispatching? && q.task == sys.processes[pid].task
    requires next.processes == sys.processes[pid := q]
    ensures ReleaseRuns(next, task) ==> ReleaseRuns(sys, task)
    ensures DispatchRuns(next, task) ==> DispatchRuns(sys, task)
  {
    if ReleaseRuns(next, task) {
      var other :| other in next.processes && next.processes[other].task == task
                   && Gives(next.processes[other]);
      assert sys.processes[other] == next.processes[other];
    }
    if DispatchRuns(next, task) {
      var other :| other in next.processes && next.processes[other].Dispatching?
                   && next.processes[other].task == task && !next.processes[other].stage.Ended?;
      assert Dispatches(sys.processes[other]) && sys.processes[other].task == task;
    }
  }

  /** A step of a running release: it reads the holder, is done with the lock, or ends. */
  lemma ReleaseKeepsReleases(policy: Policy, sys: System, next: System, pid: Pid, q: Process)
    requires Releases(policy, sys) && pid in sys.processes && Gives(sys.processes[pid])
    requires q.task == sys.processes[pid].task && next.processes == sys.processes[pid := q]
    requires var p := sys.processes[pid];
             || (p.Releasing? && q == Deleting(p.task, p.index) && next.assignments == sys.assignments
                 && p.index < |sys.assignments| && !sys.assignments[p.index].released)
             || (!p.Idling? && q == Idling(p.task, p.index) && p.index < |sys.assignments|
                 && next.assignments ==
                    sys.assignments[p.index := sys.assignments[p.index].(released := true)])
             || (p.Idling? && q.Released? && next.assignments == sys.assignments)
    ensures Releases(policy, next)
  {
    assert ReleaseSound(policy, sys, pid);
    forall other | other in next.processes ensures ReleaseSound(policy, next, other) {
      assert ReleaseSound(policy, sys, other);
      LatestSame(sys.assignments, next.assignments, sys.processes[other].task);
    }
    forall task | task !in policy.overlap && ReleaseRuns(next, task) ensures !DispatchRuns(next, task) {
      var other :| other in next.processes && next.processes[other].task == task
                   && Gives(next.processes[other]);
      assert Gives(sys.processes[other]);
      assert ReleaseRuns(sys, task);
      assert !DispatchRuns(sys, task);
    }
  }

  lemma StartDispatchKeeps(policy: Policy, sys: System, pid: Pid, task: TaskId, candidates: seq<ShareId>)
    requires Inv(policy, sys) && pid !in sys.processes
    requires Allowed(policy, sys, StartDispatch(pid, task, candidates))
    ensures Inv(policy, Do(sys, StartDispatch(pid, task, candidates)))
  {
    var q := Dispatching(task, candidates, 0, Trying);
    var next := With(sys, pid, q);
    QuietKeeps(sys, pid, q);
    forall other | other in next.processes ensures ReleaseSound(policy, next, other) {
      if other != pid {
        assert ReleaseSound(policy, sys, other);
      }
    }
    forall t | t !in policy.overlap && ReleaseRuns(next, t) ensures !DispatchRuns(next, t) {
      var other :| other in next.processes && next.processes[other].task == t
                   && Gives(next.processes[other]);
      assert other in sys.processes;
      assert ReleaseRuns(sys, t);
      assert !DispatchRuns(sys, t);
    }
  }

  lemma StartReleaseKeeps(policy: Policy, sys: System, pid: Pid, task: TaskId)
    requires Inv(policy, sys) && Careful(policy) && pid !in sys.processes
    requires Allowed(policy, sys, StartRelease(pid, task))
    ensures Inv(policy, Do(sys, StartRelease(pid, task)))
  {
    var i := Latest(sys.assignments, task);
    var q := if i == |sys.assignments| then Released(task) else Releasing(task, i);
    var next := With(sys, pid, q);
    QuietKeeps(sys, pid, q);
    forall other | other in next.processes ensures ReleaseSound(policy, next, other) {
      if other != pid {
        assert ReleaseSound(policy, sys, other);
      }
    }
    forall t ensures DispatchRuns(next, t) ==> DispatchRuns(sys, t) {
      NoNewDispatch(sys, next, pid, q, t);
    }
    forall t ensures ReleaseRuns(next, t) ==> ReleaseRuns(sys, t) || t == task {
      if ReleaseRuns(next, t) {
        var other :| other in next.processes && next.processes[other].task == t
                     && Gives(next.processes[other]);
        assert other != pid ==> Gives(sys.processes[other]);
      }
    }
  }

  lemma NoNewDispatch(sys: System, next: System, pid: Pid, q: Process, t: TaskId)
    requires pid !in sys.processes && !q.Dispatching? && next.processes == sys.processes[pid := q]
    ensures DispatchRuns(next, t) ==> DispatchRuns(sys, t)
  {
    if DispatchRuns(next, t) {
      var d :| d in next.processes && next.processes[d].Dispatching?
               && next.processes[d].task == t && !next.processes[d].stage.Ended?;
      assert d in sys.processes;
    }
  }

  /** The part of the invariant that speaks of locks. */
  ghost predicate LocksSound(sys: System) {
    Holders(sys) && Assignments(sys) && AllOwned(sys)
  }

  lemma SharesKeep(sys: System, shares: map<ShareId, ShareRow>)
    requires LocksSound(sys)
    ensures LocksSound(sys.(shares := shares))
  {
    var next := sys.(shares := shares);
    forall pid, share | pid in next.processes ensures HolderSound(next, pid, share) {
      assert HolderSound(sys, pid, share);
    }
    forall share | share in next.locks ensures Owned(next, share) {
      assert Owned(sys, share);
    }
  }

  /** Reading the holder: a dispatcher that gives its lock back finds its own task. */
  lemma ReadingKeeps(sys: System, pid: Pid, p: Process, fault: Fault)
    requires LocksSound(sys) && pid in sys.processes && p == sys.processes[pid]
    requires p.Dispatching? && p.at < |p.candidates| && (p.stage.Missed? || p.stage.Broken?)
    ensures LocksSound(AdvanceDispatch(sys, pid, p, fault))
  {
    assert HolderSound(sys, pid, p.candidates[p.at]);
    QuietKeeps(sys, pid, AdvanceDispatch(sys, pid, p, fault).processes[pid]);
  }

  lemma TryingKeeps(sys: System, pid: Pid, p: Process, fault: Fault)
    requires LocksSound(sys) && pid in sys.processes && p == sys.processes[pid] && Dispatches(p)
    requires p.at >= |p.candidates| || p.stage.Trying? || p.stage.MissedDeleting? || p.stage.BrokenDeleting?
    ensures LocksSound(AdvanceDispatch(sys, pid, p, fault))
  {
    var q := AdvanceDispatch(sys, pid, p, fault).processes[pid];
    if p.at >= |p.candidates| || (p.stage.Trying? && p.candidates[p.at] in sys.locks) {
      QuietKeeps(sys, pid, q);
    } else if p.stage.Trying? {
      AcquireKeeps(sys, pid, p.candidates[p.at], q);
    } else {
      GiveBackKeeps(sys, pid, p.candidates[p.at], q);
    }
  }

  lemma MarkingKeeps(sys: System, pid: Pid, p: Process, fault: Fault)
    requires LocksSound(sys) && pid in sys.processes && p == sys.processes[pid]
    requires p.Dispatching? && p.at < |p.candidates|
    requires p.stage.Locked? || p.stage.Updated? || p.stage.Unlocked?
    ensures LocksSound(AdvanceDispatch(sys, pid, p, fault))
  {
    var next := AdvanceDispatch(sys, pid, p, fault);
    var q := next.processes[pid];
    if p.stage.Updated? && fault == NoFault {
      AssignKeeps(sys, pid, p.candidates[p.at], q);
    } else {
      SharesKeep(sys, next.shares);
      QuietKeeps(sys.(shares := next.shares), pid, q);
    }
  }

  lemma AdvanceDispatchKeeps(policy: Policy, sys: System, pid: Pid, p: Process, fault: Fault)
    requires Inv(policy, sys) && pid in sys.processes && p == sys.processes[pid] && Dispatches(p)
    ensures Inv(policy, AdvanceDispatch(sys, pid, p, fault))
  {
    if p.at >= |p.candidates| || p.stage.Trying? || p.stage.MissedDeleting? || p.stage.BrokenDeleting? {
      TryingKeeps(sys, pid, p, fault);
    } else if p.stage.Missed? || p.stage.Broken? {
      ReadingKeeps(sys, pid, p, fault);
    } else {
      MarkingKeeps(sys, pid, p, fault);
    }
    AdvanceDispatchReleases(policy, sys, pid, p, fault);
  }

  lemma AdvanceDispatchReleases(policy: Policy, sys: System, pid: Pid, p: Process, fault: Fault)
    requires Releases(policy, sys) && pid in sys.processes && p == sys.processes[pid] && Dispatches(p)
    ensures Releases(policy, AdvanceDispatch(sys, pid, p, fault))
  {
    var next := AdvanceDispatch(sys, pid, p, fault);
    DispatchKeepsReleases(policy, sys, next, pid, next.processes[pid]);
  }

  lemma AdvanceReleaseKeeps(policy: Policy, sys: System, pid: Pid, p: Process, fault: Fault)
    requires Inv(policy, sys) && Careful(policy)
    requires pid in sys.processes && p == sys.processes[pid] && Gives(p)
    ensures Inv(policy, AdvanceRelease(sys, pid, p, fault))
  {
    assert ReleaseSound(policy, sys, pid);
    var next := AdvanceRelease(sys, pid, p, fault);
    var q := next.processes[pid];
    if p.Idling? {
      SharesKeep(sys, next.shares);
      QuietKeeps(sys.(shares := next.shares), pid, q);
    } else {
      ReleaseRightful(policy, sys, pid);
      var a := sys.assignments[p.index];
      if p.Deleting? {
        DeleteKeeps(sys, pid, p.index);
        assert next == DeletedAt(sys, pid, p.index);
      } else {
        // A holder other than the task means that the assignment is released already.
        assert HeldBy(sys.locks, a.share, p.task) || a.released;
        assert next.assignments == sys.assignments;
        QuietKeeps(sys, pid, q);
        assert next == With(sys, pid, q);
      }
    }
    ReleaseKeepsReleases(policy, sys, next, pid, q);
  }

  /** Every step the policy allows keeps the invariant. */
  lemma DoKeeps(policy: Policy, sys: System, action: Action)
    requires Inv(policy, sys) && Allowed(policy, sys, action) && Careful(policy)
    ensures Inv(policy, Do(sys, action))
  {
    match action
    case StartDispatch(pid, task, candidates) =>
      if pid !in sys.processes {
        StartDispatchKeeps(policy, sys, pid, task, candidates);
      }
    case StartRelease(pid, task) =>
      if pid !in sys.processes {
        StartReleaseKeeps(policy, sys, pid, task);
      }
    case Advance(pid, fault) =>
      if pid in sys.processes {
        var p := sys.processes[pid];
        if Dispatches(p) {
          AdvanceDispatchKeeps(policy, sys, pid, p, fault);
        } else if Gives(p) {
          AdvanceReleaseKeeps(policy, sys, pid, p, fault);
        }
      }
    case Report(share, row) =>
      ReportKeeps(policy, sys, Do(sys, action));
  }

  lemma ReportKeeps(policy: Policy, sys: System, next: System)
    requires Inv(policy, sys) && next == sys.(shares := next.shares)
    ensures Inv(policy, next)
  {
    forall pid, share | pid in next.processes ensures HolderSound(next, pid, share) {
      assert HolderSound(sys, pid, share);
    }
    forall share | share in next.locks ensures Owned(next, share) {
      assert Owned(sys, share);
    }
    forall pid | pid in next.processes ensures ReleaseSound(policy, next, pid) {
      assert ReleaseSound(policy, sys, pid);
    }
    forall task | task !in policy.overlap && ReleaseRuns(next, task) ensures !DispatchRuns(next, task) {
      assert ReleaseRuns(sys, task) && !DispatchRuns(sys, task);
    }
  }

  // ---------------------------------------------------------------------------------------------
  // Mutual exclusion
  // ---------------------------------------------------------------------------------------------

  lemma {:induction false} RunKeeps(policy: Policy, shares: map<ShareId, ShareRow>, actions: seq<Action>)
    requires Obeys(policy, Fresh(shares), actions) && Careful(policy)
    ensures Inv(policy, Run(Fresh(shares), actions))
  {
    if actions != [] {
      var n := |actions| - 1;
      RunKeeps(policy, shares, actions[..n]);
      DoKeeps(policy, Run(Fresh(shares), actions[..n]), actions[n]);
    }
  }

  lemma ReachableInv(policy: Policy, sys: System)
    requires Reachable(policy, sys) && Careful(policy)
    ensures Inv(policy, sys)
  {
    var shares: map<ShareId, ShareRow>, actions: seq<Action> :|
      Obeys(policy, Fresh(shares), actions) && sys == Run(Fresh(shares), actions);
    RunKeeps(policy, shares, actions);
  }

  lemma ReachableStep(policy: Policy, sys: System, action: Action)
    requires Reachable(policy, sys) && Allowed(policy, sys, action)
    ensures Reachable(policy, Do(sys, action))
  {
    var shares: map<ShareId, ShareRow>, actions: seq<Action> :|
      Obeys(policy, Fresh(shares), actions) && sys == Run(Fresh(shares), actions);
    var more := actions + [action];
    assert more[..|actions|] == actions;
    assert Obeys(policy, Fresh(shares), more) && Run(Fresh(shares), more) == Do(sys, action);
  }

  ghost predicate HoldsFor(sys: System, task: TaskId, share: ShareId) {
    exists pid :: pid in sys.processes && Holds(sys.processes[pid], share) && sys.processes[pid].task == task
  }

  ghost predicate AssignedNow(sys: System, task: TaskId, share: ShareId) {
    exists i :: 0 <= i < |sys.assignments| && sys.assignments[i] == Assignment(task, share, false)
  }

  /** A task has the lock of exactly the shares it is assigned, and of the one a dispatch for it is
      working on; a dispatch that ends leaves it with what it was assigned or nothing. */
  lemma LockedIffAssigned(policy: Policy, sys: System, task: TaskId, share: ShareId)
    requires Reachable(policy, sys) && Careful(policy)
    ensures share in sys.locks && sys.locks[share] == task <==>
            AssignedNow(sys, task, share) || HoldsFor(sys, task, share)
    ensures !DispatchRuns(sys, task) ==> !HoldsFor(sys, task, share)
  {
    ReachableInv(policy, sys);
    if share in sys.locks {
      assert Owned(sys, share);
      if sys.locks[share] == task
         && exists i :: 0 <= i < |sys.assignments| && !sys.assignments[i].released
                        && sys.assignments[i].share == share && sys.assignments[i].task == task
      {
        var i :| 0 <= i < |sys.assignments| && !sys.assignments[i].released
                 && sys.assignments[i].share == share && sys.assignments[i].task == task;
        assert sys.assignments[i] == Assignment(task, share, false);
      }
    }
    if HoldsFor(sys, task, share) {
      var pid :| pid in sys.processes && Holds(sys.processes[pid], share) && sys.processes[pid].task == task;
      assert HolderSound(sys, pid, share);
    }
  }

  // ---------------------------------------------------------------------------------------------
  // The failing runs
  // ---------------------------------------------------------------------------------------------

  lemma FreshReachable(policy: Policy, shares: map<ShareId, ShareRow>)
    ensures Reachable(policy, Fresh(shares))
  {
    assert Obeys(policy, Fresh(shares), []);
    assert Run(Fresh(shares), []) == Fresh(shares);
  }

  const IDLE_ROW := ShareRow(Idle, None)

  lemma Step(policy: Policy, sys: System, action: Action, next: System)
    requires Reachable(policy, sys) && Allowed(policy, sys, action) && next == Do(sys, action)
    ensures Reachable(policy, next)
  {
    ReachableStep(policy, sys, action);
  }

  function Started(sys: System, pid: Pid, t: TaskId, s: ShareId): System {
    With(sys, pid, Dispatching(t, [s], 0, Trying))
  }

  function LockedBy(sys: System, pid: Pid, t: TaskId, s: ShareId): System {
    With(sys.(locks := sys.locks[s := t]), pid, Dispatching(t, [s], 0, Locked))
  }

  function MarkedBy(sys: System, pid: Pid, t: TaskId, s: ShareId): System {
    With(sys.(shares := sys.shares[s := ShareRow(Allocated, Some(t))]), pid, Dispatching(t, [s], 0, Updated))
  }

  function Taken(sys: System, pid: Pid, t: TaskId, s: ShareId): System {
    MarkedBy(LockedBy(Started(sys, pid, t, s), pid, t, s), pid, t, s)
  }

  function AssignedBy(sys: System, pid: Pid, t: TaskId, s: ShareId): System {
    With(sys.(assignments := sys.assignments + [Assignment(t, s, false)]), pid,
         Dispatching(t, [s], 0, Ended(AssignedTo(|sys.assignments|))))
  }

  function IdledBy(sys: System, pid: Pid, t: TaskId, s: ShareId): System {
    With(sys.(shares := MarkIdle(sys.shares, s)), pid, Released(t))
  }

  /** A dispatch that finds its one candidate free gets as far as the assignment. */
  lemma Takes(policy: Policy, sys: System, pid: Pid, t: TaskId, s: ShareId)
    requires Reachable(policy, sys) && (t in policy.overlap || !ReleaseRuns(sys, t))
    requires pid !in sys.processes && s !in sys.locks && s in sys.shares && sys.shares[s] == IDLE_ROW
    ensures Reachable(policy, Taken(sys, pid, t, s))
  {
    Step(policy, sys, StartDispatch(pid, t, [s]), Started(sys, pid, t, s));
    LocksAndMarks(policy, Started(sys, pid, t, s), pid, t, s);
  }

  lemma LocksAndMarks(policy: Policy, sys: System, pid: Pid, t: TaskId, s: ShareId)
    requires Reachable(policy, sys) && s !in sys.locks && s in sys.shares && sys.shares[s] == IDLE_ROW
    requires pid in sys.processes && sys.processes[pid] == Dispatching(t, [s], 0, Trying)
    ensures Reachable(policy, MarkedBy(LockedBy(sys, pid, t, s), pid, t, s))
  {
    Step(policy, sys, Advance(pid, NoFault), LockedBy(sys, pid, t, s));
    Marks(policy, LockedBy(sys, pid, t, s), pid, t, s);
  }

  lemma Marks(policy: Policy, sys: System, pid: Pid, t: TaskId, s: ShareId)
    requires Reachable(policy, sys) && s in sys.shares && sys.shares[s] == IDLE_ROW
    requires pid in sys.processes && sys.processes[pid] == Dispatching(t, [s], 0, Locked)
    ensures Reachable(policy, MarkedBy(sys, pid, t, s))
  {
    Step(policy, sys, Advance(pid, NoFault), MarkedBy(sys, pid, t, s));
  }

  lemma Assigns(policy: Policy, sys: System, pid: Pid, t: TaskId, s: ShareId)
    requires Reachable(policy, sys)
    requires pid in sys.processes && sys.processes[pid] == Dispatching(t, [s], 0, Updated)
    ensures Reachable(policy, AssignedBy(sys, pid, t, s))
  {
    Step(policy, sys, Advance(pid, NoFault), AssignedBy(sys, pid, t, s));
  }

  lemma Releasable(policy: Policy, sys: System, pid: Pid, t: TaskId, i: nat)
    requires Reachable(policy, sys) && Allowed(policy, sys, StartRelease(pid, t))
    requires pid !in sys.processes && i < |sys.assignments| && Latest(sys.assignments, t) == i
    ensures Reachable(policy, With(sys, pid, Releasing(t, i)))
  {
    Step(policy, sys, StartRelease(pid, t), With(sys, pid, Releasing(t, i)));
  }

  lemma ReadsHolder(policy: Policy, sys: System, pid: Pid, t: TaskId, i: nat)
    requires Reachable(policy, sys) && i < |sys.assignments| && HeldBy(sys.locks, sys.assignments[i].share, t)
    requires pid in sys.processes && sys.processes[pid] == Releasing(t, i)
    ensures Reachable(policy, With(sys, pid, Deleting(t, i)))
  {
    Step(policy, sys, Advance(pid, NoFault), With(sys, pid, Deleting(t, i)));
  }

  /** A release that has read its task as the holder runs to its end, whoever holds the lock by now. */
  lemma GivesBack(policy: Policy, sys: System, pid: Pid, t: TaskId, s: ShareId, i: nat)
    requires Reachable(policy, sys) && i < |sys.assignments| && sys.assignments[i].share == s
    requires pid in sys.processes && sys.processes[pid] == Deleting(t, i)
    ensures Reachable(policy, IdledBy(DeletedAt(sys, pid, i), pid, t, s))
  {
    Step(policy, sys, Advance(pid, NoFault), DeletedAt(sys, pid, i));
    Idles(policy, DeletedAt(sys, pid, i), pid, t, s, i);
  }

  lemma Idles(policy: Policy, sys: System, pid: Pid, t: TaskId, s: ShareId, i: nat)
    requires Reachable(policy, sys) && i < |sys.assignments| && sys.assignments[i].share == s
    requires pid in sys.processes && sys.processes[pid] == Idling(t, i)
    ensures Reachable(policy, IdledBy(sys, pid, t, s))
  {
    Step(policy, sys, Advance(pid, NoFault), IdledBy(sys, pid, t, s));
  }

  /** The only processes so far are those of the pids, and work for task t. */
  ghost predicate OnlyFor(sys: System, pids: set<Pid>, t: TaskId) {
    sys.processes.Keys == pids && forall pid :: pid in pids ==> sys.processes[pid].task == t
  }

  ghost predicate FreeShare(sys: System, s: ShareId) {
    s !in sys.locks && s in sys.shares && sys.shares[s] == IDLE_ROW
  }

  /** Task t is dispatched to share s. */
  lemma AssignedOnce(policy: Policy, t: TaskId, s: ShareId) returns (sys: System)
    ensures Reachable(policy, sys) && sys.assignments == [Assignment(t, s, false)]
    ensures HeldBy(sys.locks, s, t) && s in sys.shares && OnlyFor(sys, {1}, t)
    ensures sys.processes[1] == Dispatching(t, [s], 0, Ended(AssignedTo(0)))
  {
    sys := Fresh(map[s := IDLE_ROW]);
    FreshReachable(policy, sys.shares);
    assert !ReleaseRuns(sys, t);
    Takes(policy, sys, 1, t, s);
    sys := Taken(sys, 1, t, s);
    Assigns(policy, sys, 1, t, s);
    sys := AssignedBy(sys, 1, t, s);
    assert sys.assignments == [Assignment(t, s, false)];
  }

  lemma FirstRelease(policy: Policy, t: TaskId, s: ShareId) returns (sys: System)
    ensures Reachable(policy, sys) && sys.assignments == [Assignment(t, s, false)]
    ensures HeldBy(sys.locks, s, t) && s in sys.shares && OnlyFor(sys, {1, 2}, t)
    ensures sys.processes[1] == Dispatching(t, [s], 0, Ended(AssignedTo(0)))
    ensures sys.processes[2] == Releasing(t, 0)
  {
    sys := AssignedOnce(policy, t, s);
    assert !DispatchRuns(sys, t) && !BeingReleased(sys, 0);
    Releasable(policy, sys, 2, t, 0);
    sys := With(sys, 2, Releasing(t, 0));
  }

  // The first failing run: a release of an assignment that was released before reads the assignment, the
  // task is dispatched to the share again, and the release then deletes the lock of that dispatch and marks
  // the share idle.  Another task gets in, and both end up assigned to the share.

  lemma FreedOnce(policy: Policy, t: TaskId, s: ShareId) returns (sys: System)
    ensures Reachable(policy, sys) && sys.assignments == [Assignment(t, s, true)]
    ensures FreeShare(sys, s) && OnlyFor(sys, {1, 2}, t)
    ensures !sys.processes[1].Releasing? && !sys.processes[1].Deleting? && sys.processes[2].Released?
  {
    sys := FirstRelease(policy, t, s);
    ReadsHolder(policy, sys, 2, t, 0);
    sys := With(sys, 2, Deleting(t, 0));
    GivesBack(policy, sys, 2, t, s, 0);
    sys := IdledBy(DeletedAt(sys, 2, 0), 2, t, s);
  }

  lemma SecondRelease(policy: Policy, t: TaskId, s: ShareId) returns (sys: System)
    requires t in policy.overlap && t in policy.repeat
    ensures Reachable(policy, sys) && sys.assignments == [Assignment(t, s, true)]
    ensures FreeShare(sys, s) && OnlyFor(sys, {1, 2, 3}, t) && sys.processes[3] == Releasing(t, 0)
  {
    sys := FreedOnce(policy, t, s);
    assert !BeingReleased(sys, 0);
    Releasable(policy, sys, 3, t, 0);
    sys := With(sys, 3, Releasing(t, 0));
  }

  lemma TakenAgain(policy: Policy, t: TaskId, s: ShareId) returns (sys: System)
    requires t in policy.overlap && t in policy.repeat
    ensures Reachable(policy, sys) && sys.assignments == [Assignment(t, s, true)]
    ensures HeldBy(sys.locks, s, t) && s in sys.shares && OnlyFor(sys, {1, 2, 3, 4}, t)
    ensures sys.processes[3] == Releasing(t, 0) && sys.processes[4] == Dispatching(t, [s], 0, Updated)
  {
    sys := SecondRelease(policy, t, s);
    Takes(policy, sys, 4, t, s);
    sys := Taken(sys, 4, t, s);
  }

  lemma LockLost(policy: Policy, t: TaskId, s: ShareId) returns (sys: System)
    requires t in policy.overlap && t in policy.repeat
    ensures Reachable(policy, sys) && sys.assignments == [Assignment(t, s, true)]
    ensures FreeShare(sys, s) && OnlyFor(sys, {1, 2, 3, 4}, t)
    ensures sys.processes[4] == Dispatching(t, [s], 0, Updated)
  {
    sys := TakenAgain(policy, t, s);
    ReadsHolder(policy, sys, 3, t, 0);
    sys := With(sys, 3, Deleting(t, 0));
    GivesBack(policy, sys, 3, t, s, 0);
    sys := IdledBy(DeletedAt(sys, 3, 0), 3, t, s);
  }

  /** What a finished dispatch leaves of the other processes. */
  ghost predicate Joined(sys: System, next: System, pid: Pid, u: TaskId) {
    && next.processes.Keys == sys.processes.Keys + {pid} && next.processes[pid].task == u
    && next.processes[pid].Dispatching?
    && forall other :: other in sys.processes && other != pid ==> next.processes[other] == sys.processes[other]
  }

  lemma TakenAndAssigned(policy: Policy, sys: System, pid: Pid, u: TaskId, s: ShareId) returns (next: System)
    requires Reachable(policy, sys) && pid !in sys.processes && FreeShare(sys, s) && !ReleaseRuns(sys, u)
    ensures Reachable(policy, next) && next.assignments == sys.assignments + [Assignment(u, s, false)]
    ensures Joined(sys, next, pid, u) && s in next.locks && s in next.shares
  {
    Takes(policy, sys, pid, u, s);
    next := AssignedBy(Taken(sys, pid, u, s), pid, u, s);
    Assigns(policy, Taken(sys, pid, u, s), pid, u, s);
  }

  lemma OtherAssigned(policy: Policy, t: TaskId, u: TaskId, s: ShareId) returns (sys: System)
    requires t in policy.overlap && t in policy.repeat && u != t
    ensures Reachable(policy, sys) && 4 in sys.processes && sys.processes[4] == Dispatching(t, [s], 0, Updated)
    ensures sys.assignments == [Assignment(t, s, true), Assignment(u, s, false)]
  {
    sys := LockLost(policy, t, s);
    assert !ReleaseRuns(sys, u);
    sys := TakenAndAssigned(policy, sys, 5, u, s);
  }

  lemma DoublyAssigned(policy: Policy, t: TaskId, u: TaskId, s: ShareId) returns (sys: System)
    requires t in policy.overlap && t in policy.repeat && u != t
    ensures Reachable(policy, sys)
    ensures sys.assignments == [Assignment(t, s, true), Assignment(u, s, false), Assignment(t, s, false)]
  {
    sys := OtherAssigned(policy, t, u, s);
    Assigns(policy, sys, 4, t, s);
    sys := AssignedBy(sys, 4, t, s);
  }

  // The second failing run: two releases of one assignment both read the task as the holder of the lock.
  // One deletes the lock and marks the share idle, another task takes the share, and the other release
  // then deletes the lock of that task and marks the share idle once more.

  lemma BothReleasing(policy: Policy, t: TaskId, s: ShareId) returns (sys: System)
    requires t in policy.concurrent
    ensures Reachable(policy, sys) && sys.assignments == [Assignment(t, s, false)]
    ensures HeldBy(sys.locks, s, t) && s in sys.shares && OnlyFor(sys, {1, 2, 3}, t)
    ensures sys.processes[2] == Releasing(t, 0) && sys.processes[3] == Releasing(t, 0)
  {
    sys := FirstRelease(policy, t, s);
    assert !DispatchRuns(sys, t);
    Releasable(policy, sys, 3, t, 0);
    sys := With(sys, 3, Releasing(t, 0));
  }

  lemma TwoReaders(policy: Policy, t: TaskId, s: ShareId) returns (sys: System)
    requires t in policy.concurrent
    ensures Reachable(policy, sys) && sys.assignments == [Assignment(t, s, false)]
    ensures HeldBy(sys.locks, s, t) && s in sys.shares && OnlyFor(sys, {1, 2, 3}, t)
    ensures sys.processes[2] == Deleting(t, 0) && sys.processes[3] == Deleting(t, 0)
  {
    sys := BothReleasing(policy, t, s);
    ReadsHolder(policy, sys, 2, t, 0);
    sys := With(sys, 2, Deleting(t, 0));
    ReadsHolder(policy, sys, 3, t, 0);
    sys := With(sys, 3, Deleting(t, 0));
  }

  lemma OneDeleted(policy: Policy, t: TaskId, s: ShareId) returns (sys: System)
    requires t in policy.concurrent
    ensures Reachable(policy, sys) && sys.assignments == [Assignment(t, s, true)]
    ensures FreeShare(sys, s) && OnlyFor(sys, {1, 2, 3}, t) && sys.processes[3] == Deleting(t, 0)
  {
    sys := TwoReaders(policy, t, s);
    GivesBack(policy, sys, 2, t, s, 0);
    sys := IdledBy(DeletedAt(sys, 2, 0), 2, t, s);
  }

  lemma StrangerAssigned(policy: Policy, t: TaskId, u: TaskId, s: ShareId) returns (sys: System)
    requires t in policy.concurrent && u != t
    ensures Reachable(policy, sys) && s in sys.locks && s in sys.shares
    ensures sys.assignments == [Assignment(t, s, true), Assignment(u, s, false)]
    ensures sys.processes.Keys == {1, 2, 3, 4} && sys.processes[3] == Deleting(t, 0)
    ensures forall pid :: pid in sys.processes ==> sys.processes[pid].task == t || sys.processes[pid].task == u
  {
    sys := OneDeleted(policy, t, s);
    assert !ReleaseRuns(sys, u);
    sys := TakenAndAssigned(policy, sys, 4, u, s);
  }

  lemma OtherLockDeleted(policy: Policy, t: TaskId, u: TaskId, s: ShareId) returns (sys: System)
    requires t in policy.concurrent && u != t
    ensures Reachable(policy, sys) && FreeShare(sys, s)
    ensures sys.assignments == [Assignment(t, s, true), Assignment(u, s, false)]
    ensures sys.processes.Keys == {1, 2, 3, 4}
    ensures forall pid :: pid in sys.processes ==> sys.processes[pid].task == t || sys.processes[pid].task == u
  {
    sys := StrangerAssigned(policy, t, u, s);
    GivesBack(policy, sys, 3, t, s, 0);
    sys := IdledBy(DeletedAt(sys, 3, 0), 3, t, s);
  }

  lemma TwoStrangers(policy: Policy, t: TaskId, u: TaskId, v: TaskId, s: ShareId) returns (sys: System)
    requires t in policy.concurrent && u != t && v != t && v != u
    ensures Reachable(policy, sys)
    ensures sys.assignments == [Assignment(t, s, true), Assignment(u, s, false), Assignment(v, s, false)]
  {
    sys := OtherLockDeleted(policy, t, u, s);
    assert !ReleaseRuns(sys, v);
    sys := TakenAndAssigned(policy, sys, 5, v, s);
  }

  /** No share ever has two unreleased assignments, in any interleaving of dispatches, releases and
      other writers of the share table, exactly when no assignment may be released by two callers at once,
      and no task's release may both overlap a dispatch of the task and repeat an earlier release. */
  lemma ExclusiveIff(policy: Policy)
    ensures (forall sys :: Reachable(policy, sys) ==> Exclusive(sys)) <==> Careful(policy)
  {
    if Careful(policy) {
      forall sys | Reachable(policy, sys) ensures Exclusive(sys) {
        ReachableInv(policy, sys);
      }
    } else {
      var sys := CarelessRun(policy);
    }
  }

  lemma CarelessRun(policy: Policy) returns (sys: System)
    requires !Careful(policy)
    ensures Reachable(policy, sys) && !Exclusive(sys)
  {
    if t :| t in policy.concurrent {
      sys := TwoStrangers(policy, t, t + "'", t + "''", "share");
    } else {
      var t :| t in policy.overlap && t in policy.repeat;
      sys := DoublyAssigned(policy, t, t + "'", "share");
    }
    assert sys.assignments[1].share == sys.assignments[2].share;
  }
}
