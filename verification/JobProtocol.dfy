/** Job admission, the drop-guard lease, settling, stale-count healing and the
    supervisor restart: one step per critical section of the session lock. */
module JobProtocol {
  import opened Base

  // ---- the session fields, and the critical sections as functions of them ----

  datatype Session = Session(
    count: nat, busy: bool, activeId: Option<string>, maxJobs: nat,
    pending: bool, restarting: bool, supervisor: Option<nat>)

  function Idle(s: Session): Session { s.(count := 0, busy := false, activeId := None) }

  function Admitted(s: Session, id: string): Session
  {
    s.(count := Min(s.count + 1, U32_MAX), busy := true, activeId := Some(id))
  }

  predicate MayAdmit(s: Session, draining: bool)
  {
    !s.restarting && !draining && s.count < Max(s.maxJobs, 1)
  }

  function Settled(s: Session): Session
  {
    if s.count <= 1 then Idle(s) else s.(count := s.count - 1)
  }

  function LeaseSettled(s: Session): Session { if s.count == 0 then s else Settled(s) }

  predicate MayClaim(s: Session, slotsUnderreport: bool) { (s.pending || slotsUnderreport) && s.count == 0 }

  /** A request outlives the section exactly while jobs are counted. */
  function Claiming(s: Session, slotsUnderreport: bool): Session
  {
    s.(pending := (s.pending || slotsUnderreport) && s.count > 0)
  }

  function Taking(s: Session): Session
  {
    if s.count > 0 then s.(pending := true) else s.(restarting := true, supervisor := None)
  }

  function Finishing(s: Session, started: Option<nat>): Session
  {
    if started.Some? then s.(restarting := false, supervisor := started) else s.(restarting := false, pending := true)
  }

  /** What every section keeps: zero jobs, Idle and no active id go together,
      and admission is closed only while no supervisor is installed. */
  predicate SessionOk(s: Session)
  {
    && s.count <= U32_MAX && s.maxJobs <= U32_MAX
    && (s.count == 0 <==> !s.busy) && (s.count == 0 <==> s.activeId == None)
    && (s.restarting ==> s.supervisor == None)
  }

  class SessionState {
    var activeJobCount: nat
    var jobBusy: bool
    var activeJobId: Option<string>
    var cachedMaxJobs: nat
    var pendingSupervisorRestart: bool
    var supervisorRestarting: bool
    var supervisor: Option<nat>

    function View(): Session
      reads this
    {
      Session(activeJobCount, jobBusy, activeJobId, cachedMaxJobs, pendingSupervisorRestart, supervisorRestarting, supervisor)
    }

    constructor (firstSupervisor: nat)
      ensures View() == Session(0, false, None, 1, false, false, Some(firstSupervisor)) && SessionOk(View())
    {
      activeJobCount, jobBusy, activeJobId, cachedMaxJobs := 0, false, None, 1;
      pendingSupervisorRestart, supervisorRestarting, supervisor := false, false, Some(firstSupervisor);
    }

    method MarkBusy(id: string)
      requires SessionOk(View())
      modifies this`activeJobCount, this`jobBusy, this`activeJobId
      ensures SessionOk(View()) && View() == Admitted(old(View()), id)
      ensures activeJobCount == (if old(activeJobCount) == 0xFFFF_FFFF then old(activeJobCount) else old(activeJobCount) + 1)
      ensures jobBusy && activeJobId == Some(id)
    {
      if activeJobCount < U32_MAX {
        activeJobCount := activeJobCount + 1;
      }
      jobBusy := true;
      activeJobId := Some(id);
    }

    /** The admission section of `respond_invoke`. */
    method AdmitInvoke(id: string, draining: bool) returns (admitted: bool)
      requires SessionOk(View())
      modifies this`activeJobCount, this`jobBusy, this`activeJobId
      ensures SessionOk(View())
      ensures admitted <==> !supervisorRestarting && !draining && (old(activeJobCount) == 0 || old(activeJobCount) < cachedMaxJobs)
      ensures admitted ==> activeJobCount == old(activeJobCount) + 1 && jobBusy && activeJobId == Some(id)
      ensures View() == if admitted then Admitted(old(View()), id) else old(View())
    {
      if supervisorRestarting {
        return false;
      }
      if draining {
        return false;
      }
      var maxJobs := Max(cachedMaxJobs, 1);
      if activeJobCount >= maxJobs {
        return false;
      }
      MarkBusy(id);
      return true;
    }

    /** The admission section of `respond_invoke_split`: no job ceiling. */
    method AdmitSplit(id: string, draining: bool) returns (admitted: bool)
      requires SessionOk(View())
      modifies this`activeJobCount, this`jobBusy, this`activeJobId
      ensures SessionOk(View()) && admitted == (!supervisorRestarting && !draining)
      ensures admitted ==> jobBusy && activeJobId == Some(id)
      ensures View() == if admitted then Admitted(old(View()), id) else old(View())
    {
      if supervisorRestarting || draining {
        return false;
      }
      MarkBusy(id);
      return true;
    }

    method SettleJob()
      requires SessionOk(View())
      modifies this`activeJobCount, this`jobBusy, this`activeJobId
      ensures SessionOk(View()) && View() == Settled(old(View()))
      ensures activeJobCount == if old(activeJobCount) == 0 then 0 else old(activeJobCount) - 1
      ensures activeJobCount == 0 ==> !jobBusy && activeJobId == None
      ensures activeJobCount > 0 ==> jobBusy == old(jobBusy) && activeJobId == old(activeJobId)
    {
      activeJobCount := Max(activeJobCount - 1, 0);
      if activeJobCount == 0 {
        jobBusy := false;
        activeJobId := None;
      }
    }

    /** What a dropped, still armed `ActiveJobLease` spawns. */
    method SettleLease()
      requires SessionOk(View())
      modifies this`activeJobCount, this`jobBusy, this`activeJobId
      ensures SessionOk(View()) && View() == LeaseSettled(old(View()))
      ensures activeJobCount == if old(activeJobCount) == 0 then 0 else old(activeJobCount) - 1
    {
      if activeJobCount == 0 {
        return;
      }
      SettleJob();
    }

    method ClearJobs()
      requires SessionOk(View())
      modifies this`activeJobCount, this`jobBusy, this`activeJobId
      ensures SessionOk(View()) && View() == Idle(old(View()))
      ensures activeJobCount == 0 && !jobBusy && activeJobId == None
    {
      activeJobCount, jobBusy, activeJobId := 0, false, None;
    }

    method HealStale(inFlight: bool, anySlotBusy: bool) returns (healed: bool)
      requires SessionOk(View())
      modifies this`activeJobCount, this`jobBusy, this`activeJobId
      ensures SessionOk(View()) && healed == (old(activeJobCount) > 0 && !inFlight && !anySlotBusy)
      ensures healed ==> activeJobCount == 0 && !jobBusy && activeJobId == None
      ensures View() == if healed then Idle(old(View())) else old(View())
    {
      healed := activeJobCount > 0 && !inFlight && !anySlotBusy;
      if healed {
        ClearJobs();
      }
    }

    method ClaimRestart(slotsUnderreport: bool) returns (claimed: bool)
      requires SessionOk(View())
      modifies this`pendingSupervisorRestart
      ensures SessionOk(View()) && View() == Claiming(old(View()), slotsUnderreport)
      ensures claimed <==> (old(pendingSupervisorRestart) || slotsUnderreport) && activeJobCount == 0
      ensures pendingSupervisorRestart <==> (old(pendingSupervisorRestart) || slotsUnderreport) && !claimed
    {
      if !pendingSupervisorRestart && slotsUnderreport {
        pendingSupervisorRestart := true;
      }
      claimed := pendingSupervisorRestart && activeJobCount == 0;
      if claimed {
        pendingSupervisorRestart := false;
      }
    }

    method TakeSupervisor() returns (taken: bool, previous: Option<nat>)
      requires SessionOk(View())
      modifies this`pendingSupervisorRestart, this`supervisorRestarting, this`supervisor
      ensures SessionOk(View()) && View() == Taking(old(View()))
      ensures taken <==> activeJobCount == 0
      ensures taken ==> previous == old(supervisor) && supervisor == None && supervisorRestarting
      ensures taken ==> pendingSupervisorRestart == old(pendingSupervisorRestart)
      ensures !taken ==> pendingSupervisorRestart && supervisor == old(supervisor) && supervisorRestarting == old(supervisorRestarting)
    {
      if activeJobCount > 0 {
        pendingSupervisorRestart := true;
        return false, None;
      }
      supervisorRestarting := true;
      taken, previous := true, supervisor;
      supervisor := None;
    }

    method FinishRestart(started: Option<nat>)
      requires SessionOk(View())
      modifies this`pendingSupervisorRestart, this`supervisorRestarting, this`supervisor
      ensures SessionOk(View()) && View() == Finishing(old(View()), started)
      ensures !supervisorRestarting && supervisor == if started.Some? then started else old(supervisor)
      ensures pendingSupervisorRestart <==> old(pendingSupervisorRestart) || started.None?
    {
      supervisorRestarting := false;
      if started.Some? {
        supervisor := started;
      } else {
        pendingSupervisorRestart := true;
      }
    }

    /** A step of the system below is one of these sections: it leaves the fields
        as the step says, and answers as the step goes on. */
    method Perform(a: Action, started: nat, ghost sys: System) returns (answer: bool)
      requires SessionOk(View()) && sys.session == View() && Enabled(sys, a) && started == sys.nextSupervisor
      modifies this
      ensures SessionOk(View()) && Act(sys, a).session == View()
      ensures (a.Admit? || a.SplitAdmit?) ==> (answer <==> a.j in Act(sys, a).tasks)
      ensures a.Claim? ==> (answer <==> a.r in Act(sys, a).restarts)
      ensures a.Take? ==> (answer <==> a.r in Act(sys, a).restarts)
    {
      answer := true;
      match a
      case Admit(_, id, draining) => answer := AdmitInvoke(id, draining);
      case SplitAdmit(_, id, draining) => answer := AdmitSplit(id, draining);
      case FinishSection(_) => SettleJob();
      case SplitSettle(_) => SettleJob();
      case RunLease(_) => SettleLease();
      case Heal(inFlight, anySlotBusy) => answer := HealStale(inFlight, anySlotBusy);
      case CancelClear => ClearJobs();
      case SetMaxJobs(n) => cachedMaxJobs := n;
      case RequestRestart => pendingSupervisorRestart := true;
      case Claim(_, under) => answer := ClaimRestart(under);
      case DetectFailed(_) => pendingSupervisorRestart := true;
      case Take(_) =>
        var previous;
        answer, previous := TakeSupervisor();
      case Install(_) => FinishRestart(Some(started));
      case InstallFailed(_) => FinishRestart(None);
      case _ =>
    }
  }

  // ---- the jobs around the session ----

  datatype Kind = Invoke | Split

  /** Where a task stands between its lock sections. The only await points are
      in Working, so only there can it be aborted. */
  datatype Pc = Working | Unlocked | Disarmed | Gone

  datatype Task = Task(kind: Kind, pc: Pc, armed: bool, leaseSpawned: bool, settlements: nat, supervisor: Option<nat>)

  datatype Restart = Claimed | Window(previous: Option<nat>)

  datatype System = System(
    session: Session, tasks: map<nat, Task>, captured: map<nat, Option<nat>>,
    restarts: map<nat, Restart>, shut: set<nat>, nextSupervisor: nat)

  datatype Action =
    | Admit(j: nat, id: string, draining: bool)
    | FinishSection(j: nat)     // decrement under the lock
    | Disarm(j: nat)
    | DropLease(j: nat)         // abort at an await, or the normal return
    | RunLease(j: nat)          // the spawned decrement
    | SplitCapture(j: nat)      // clone the supervisor, long before admission
    | SplitAdmit(j: nat, id: string, draining: bool)
    | SplitSettle(j: nat)
    | SplitAbandon(j: nat)      // abort, or `?` after admission: no lease
    | Heal(inFlight: bool, anySlotBusy: bool)
    | CancelClear
    | SetMaxJobs(n: nat)
    | RequestRestart            // a compute-policy change
    | Claim(r: nat, slotsUnderreport: bool)
    | DetectFailed(r: nat)
    | Take(r: nat)
    | Shutdown(r: nat)
    | Install(r: nat)
    | InstallFailed(r: nat)

  predicate At(sys: System, j: nat, kind: Kind, pc: Pc)
  {
    j in sys.tasks && sys.tasks[j].kind == kind && sys.tasks[j].pc == pc
  }

  /** The new supervisor is started only after the old one's shutdown returned. */
  predicate PreviousDown(sys: System, r: nat)
  {
    && r in sys.restarts && sys.restarts[r].Window?
    && (sys.restarts[r].previous.Some? ==> sys.restarts[r].previous.value in sys.shut)
  }

  predicate Enabled(sys: System, a: Action)
  {
    match a
    case Admit(j, _, _) => j !in sys.tasks
    case FinishSection(j) => At(sys, j, Invoke, Working)
    case Disarm(j) => At(sys, j, Invoke, Unlocked)
    case DropLease(j) => At(sys, j, Invoke, Working) || At(sys, j, Invoke, Disarmed)
    case RunLease(j) => j in sys.tasks && sys.tasks[j].leaseSpawned
    case SplitCapture(j) => j !in sys.tasks && j !in sys.captured
    case SplitAdmit(j, _, _) => j !in sys.tasks && j in sys.captured
    case SplitSettle(j) => At(sys, j, Split, Working)
    case SplitAbandon(j) => At(sys, j, Split, Working)
    case SetMaxJobs(n) => n <= U32_MAX
    case Claim(r, _) => r !in sys.restarts
    case DetectFailed(r) => r in sys.restarts && sys.restarts[r].Claimed?
    case Take(r) => r in sys.restarts && sys.restarts[r].Claimed?
    case Shutdown(r) => r in sys.restarts && sys.restarts[r].Window?
    case Install(r) => PreviousDown(sys, r)
    case InstallFailed(r) => PreviousDown(sys, r)
    case _ => true
  }

  function Act(sys: System, a: Action): System
    requires Enabled(sys, a)
  {
    var s := sys.session;
    match a
    case Admit(j, id, draining) =>
      if !MayAdmit(s, draining) then sys
      else
        // Without a supervisor the `?` returns at once and drops the lease.
        var t := Task(Invoke, if s.supervisor.Some? then Working else Gone, s.supervisor.Some?, s.supervisor.None?, 0, s.supervisor);
        sys.(session := Admitted(s, id), tasks := sys.tasks[j := t])
    case FinishSection(j) =>
      var t := sys.tasks[j];
      sys.(session := Settled(s), tasks := sys.tasks[j := t.(pc := Unlocked, settlements := t.settlements + 1)])
    case Disarm(j) => sys.(tasks := sys.tasks[j := sys.tasks[j].(pc := Disarmed, armed := false)])
    case DropLease(j) =>
      var t := sys.tasks[j];
      sys.(tasks := sys.tasks[j := t.(pc := Gone, armed := false, leaseSpawned := t.armed)])
    case RunLease(j) =>
      var t := sys.tasks[j];
      sys.(session := LeaseSettled(s), tasks := sys.tasks[j := t.(leaseSpawned := false, settlements := t.settlements + 1)])
    case SplitCapture(j) => sys.(captured := sys.captured[j := s.supervisor])
    case SplitAdmit(j, id, draining) =>
      if s.restarting || draining then sys
      else sys.(session := Admitted(s, id), tasks := sys.tasks[j := Task(Split, Working, false, false, 0, sys.captured[j])])
    case SplitSettle(j) =>
      var t := sys.tasks[j];
      sys.(session := Settled(s), tasks := sys.tasks[j := t.(pc := Gone, settlements := t.settlements + 1)])
    case SplitAbandon(j) => sys.(tasks := sys.tasks[j := sys.tasks[j].(pc := Gone)])
    case Heal(inFlight, anySlotBusy) =>
      if s.count > 0 && !inFlight && !anySlotBusy then sys.(session := Idle(s)) else sys
    case CancelClear => sys.(session := Idle(s))
    case SetMaxJobs(n) => sys.(session := s.(maxJobs := n))
    case RequestRestart => sys.(session := s.(pending := true))
    case Claim(r, under) =>
      sys.(session := Claiming(s, under), restarts := if MayClaim(s, under) then sys.restarts[r := Claimed] else sys.restarts)
    case DetectFailed(r) => sys.(session := s.(pending := true), restarts := sys.restarts - {r})
    case Take(r) =>
      sys.(session := Taking(s),
           restarts := if s.count > 0 then sys.restarts - {r} else sys.restarts[r := Window(s.supervisor)])
    case Shutdown(r) =>
      var p := sys.restarts[r].previous;
      sys.(shut := sys.shut + if p.Some? then {p.value} else {})
    case Install(r) =>
      sys.(session := Finishing(s, Some(sys.nextSupervisor)), restarts := sys.restarts - {r},
           nextSupervisor := sys.nextSupervisor + 1)
    case InstallFailed(r) => sys.(session := Finishing(s, None), restarts := sys.restarts - {r})
  }

  function Start(): System
  {
    System(Session(0, false, None, 1, false, false, Some(0)), map[], map[], map[], {}, 1)
  }

  predicate IsRun(sys: System, actions: seq<Action>)
    decreases |actions|
  {
    actions == [] || (Enabled(sys, actions[0]) && IsRun(Act(sys, actions[0]), actions[1..]))
  }

  function After(sys: System, actions: seq<Action>): System
    requires IsRun(sys, actions)
    decreases |actions|
  {
    if actions == [] then sys else After(Act(sys, actions[0]), actions[1..])
  }

  // ---- who gets in ----

  /** The section of `a` takes job `j` in. */
  predicate LetsIn(sys: System, a: Action, j: nat)
  {
    && !sys.session.restarting
    && ((a.Admit? && a.j == j && !a.draining && (sys.session.count == 0 || sys.session.count < sys.session.maxJobs))
      || (a.SplitAdmit? && a.j == j && !a.draining))
  }

  predicate LetInDuring(sys: System, actions: seq<Action>, j: nat)
    requires IsRun(sys, actions)
    decreases |actions|
  {
    actions != [] && (LetsIn(sys, actions[0], j) || LetInDuring(Act(sys, actions[0]), actions[1..], j))
  }

  /** Over every run a new job exists exactly when some section met it with no
      restart under way, no update drain and, for an invoke job, the machine idle
      or below its limit. */
  lemma {:induction false} TaskExistsIff(sys: System, actions: seq<Action>, j: nat)
    requires IsRun(sys, actions) && j !in sys.tasks
    ensures j in After(sys, actions).tasks <==> LetInDuring(sys, actions, j)
    decreases |actions|
  {
    if actions != [] {
      var next := Act(sys, actions[0]);
      if j in next.tasks { TaskStays(next, actions[1..], j); } else { TaskExistsIff(next, actions[1..], j); }
    }
  }

  lemma {:induction false} TaskStays(sys: System, actions: seq<Action>, j: nat)
    requires IsRun(sys, actions) && j in sys.tasks
    ensures j in After(sys, actions).tasks
    decreases |actions|
  {
    if actions != [] { TaskStays(Act(sys, actions[0]), actions[1..], j); }
  }

  /** So a draining agent takes nothing in. */
  lemma {:induction false} DrainTakesNothingIn(sys: System, actions: seq<Action>)
    requires IsRun(sys, actions) && forall i :: 0 <= i < |actions| ==>
      (actions[i].Admit? || actions[i].SplitAdmit? ==> actions[i].draining)
    ensures After(sys, actions).tasks.Keys == sys.tasks.Keys
    decreases |actions|
  {
    if actions != [] {
      assert Act(sys, actions[0]).tasks.Keys == sys.tasks.Keys;
      DrainTakesNothingIn(Act(sys, actions[0]), actions[1..]);
    }
  }

  // ---- job accounting ----

  function Unsettled(sys: System): set<nat>
  {
    set j | j in sys.tasks && sys.tasks[j].settlements == 0
  }

  /** An armed lease, a spawned lease and a settlement exclude each other, and
      every invoke task has exactly one of them, its own settlement included. */
  predicate TaskOk(t: Task)
  {
    if t.kind.Split? then !t.armed && !t.leaseSpawned && t.settlements <= 1 && (t.settlements == 1 ==> t.pc.Gone?)
    else match t.pc
      case Working => t.armed && !t.leaseSpawned && t.settlements == 0
      case Unlocked => t.armed && !t.leaseSpawned && t.settlements == 1
      case Disarmed => !t.armed && !t.leaseSpawned && t.settlements == 1
      case Gone => !t.armed && t.settlements == if t.leaseSpawned then 0 else 1
  }

  predicate Accounted(sys: System)
  {
    && SessionOk(sys.session)
    && (forall j :: j in sys.tasks ==> TaskOk(sys.tasks[j]))
    && sys.session.count <= |Unsettled(sys)|
  }

  lemma UnsettledAfter(sys: System, after: System, j: nat, t: Task)
    requires after.tasks == sys.tasks[j := t]
    ensures Unsettled(after) == if t.settlements == 0 then Unsettled(sys) + {j} else Unsettled(sys) - {j}
    ensures |Unsettled(after)| ==
      |Unsettled(sys)| - (if j in Unsettled(sys) then 1 else 0) + (if t.settlements == 0 then 1 else 0)
  {
    var u := if t.settlements == 0 then Unsettled(sys) + {j} else Unsettled(sys) - {j};
    assert Unsettled(after) == u;
    assert j in Unsettled(sys) ==> Unsettled(sys) == (Unsettled(sys) - {j}) + {j};
  }

  /** The job a step rewrites, if any. */
  function Touched(a: Action): Option<nat>
  {
    match a
    case Admit(j, _, _) => Some(j)
    case FinishSection(j) => Some(j)
    case Disarm(j) => Some(j)
    case DropLease(j) => Some(j)
    case RunLease(j) => Some(j)
    case SplitAdmit(j, _, _) => Some(j)
    case SplitSettle(j) => Some(j)
    case SplitAbandon(j) => Some(j)
    case _ => None
  }

  lemma UnsettledStep(sys: System, a: Action)
    requires Enabled(sys, a)
    ensures var after := Act(sys, a);
      var j := Touched(a);
      if j.Some? && j.value in after.tasks then
        var t := after.tasks[j.value];
        && Unsettled(after) == (if t.settlements == 0 then Unsettled(sys) + {j.value} else Unsettled(sys) - {j.value})
        && |Unsettled(after)| ==
           |Unsettled(sys)| - (if j.value in Unsettled(sys) then 1 else 0) + (if t.settlements == 0 then 1 else 0)
      else Unsettled(after) == Unsettled(sys)
  {
    var after := Act(sys, a);
    var j := Touched(a);
    if j.Some? && j.value in after.tasks {
      assert after.tasks == sys.tasks[j.value := after.tasks[j.value]];
      UnsettledAfter(sys, after, j.value, after.tasks[j.value]);
    } else {
      assert after.tasks == sys.tasks;
    }
  }

  lemma ActKeepsTasks(sys: System, a: Action)
    requires Enabled(sys, a) && forall j :: j in sys.tasks ==> TaskOk(sys.tasks[j])
    ensures forall j :: j in Act(sys, a).tasks ==> TaskOk(Act(sys, a).tasks[j])
  {
  }

  lemma ActKeepsSession(sys: System, a: Action)
    requires Enabled(sys, a) && SessionOk(sys.session)
    ensures SessionOk(Act(sys, a).session)
  {
  }

  predicate Owes(sys: System, j: nat) { j in sys.tasks && sys.tasks[j].settlements == 0 }

  /** What a step does to the count, against what it does to the one task it rewrites. */
  predicate CountFollows(sys: System, after: System, j: nat)
  {
    && (after.tasks == sys.tasks || (j in after.tasks && after.tasks == sys.tasks[j := after.tasks[j]]))
    && after.session.count ==
       if !Owes(sys, j) && Owes(after, j) then Min(sys.session.count + 1, U32_MAX)
       else if Owes(sys, j) && !Owes(after, j) then Max(sys.session.count - 1, 0)
       else sys.session.count
  }

  lemma TaskStepCounts(sys: System, a: Action)
    requires Enabled(sys, a) && Touched(a).Some? && forall j :: j in sys.tasks ==> TaskOk(sys.tasks[j])
    ensures CountFollows(sys, Act(sys, a), Touched(a).value)
  {
    assert Touched(a).value in sys.tasks ==> TaskOk(sys.tasks[Touched(a).value]);
  }

  lemma CountBounds(sys: System, after: System, j: nat)
    requires CountFollows(sys, after, j) && sys.session.count <= |Unsettled(sys)|
    ensures after.session.count <= |Unsettled(after)|
    ensures sys.session.count == |Unsettled(sys)| && (sys.session.count < U32_MAX || Owes(sys, j) || !Owes(after, j)) ==>
      after.session.count == |Unsettled(after)|
  {
    assert forall i :: i in Unsettled(sys) <==> Owes(sys, i);
    if after.tasks != sys.tasks {
      UnsettledAfter(sys, after, j, after.tasks[j]);
      assert j in Unsettled(sys) ==> |Unsettled(sys)| >= 1;
    } else {
      assert Unsettled(after) == Unsettled(sys);
    }
  }

  lemma ActKeepsAccounted(sys: System, a: Action)
    requires Accounted(sys) && Enabled(sys, a)
    ensures Accounted(Act(sys, a))
  {
    ActKeepsSession(sys, a);
    ActKeepsTasks(sys, a);
    if Touched(a).Some? {
      TaskStepCounts(sys, a);
      CountBounds(sys, Act(sys, a), Touched(a).value);
    } else {
      UnsettledStep(sys, a);
    }
  }

  /** Under every interleaving, aborts, heals and clears included: no task
      settles twice, one that is over and has no lease left to run has settled,
      the count never exceeds the unsettled jobs, and zero, Idle and "no active
      id" go together. */
  lemma {:induction false} EveryRunAccounts(sys: System, actions: seq<Action>)
    requires Accounted(sys) && IsRun(sys, actions)
    ensures Accounted(After(sys, actions))
    ensures var end := After(sys, actions);
      forall j :: j in end.tasks && end.tasks[j].kind.Invoke? ==>
        && end.tasks[j].settlements <= 1
        && (end.tasks[j].pc.Gone? && !end.tasks[j].leaseSpawned ==> end.tasks[j].settlements == 1)
    decreases |actions|
  {
    if actions != [] {
      ActKeepsAccounted(sys, actions[0]);
      EveryRunAccounts(Act(sys, actions[0]), actions[1..]);
    }
  }

  /** The run ends the job, settles it once and takes it off the count. */
  predicate SettlesOnce(sys: System, run: seq<Action>, j: nat)
  {
    && IsRun(sys, run)
    && var after := After(sys, run);
       j in after.tasks && after.tasks[j].settlements == 1 && after.tasks[j].pc == Gone && !after.tasks[j].leaseSpawned
       && after.session.count == if sys.session.count == 0 then 0 else sys.session.count - 1
  }

  lemma AbortSettles(sys: System, j: nat)
    requires At(sys, j, Invoke, Working) && TaskOk(sys.tasks[j])
    ensures SettlesOnce(sys, [DropLease(j), RunLease(j)], j)
  {
    var r0 := [];
    var r1 := r0 + [DropLease(j)]; Extend(sys, r0, DropLease(j));
    assert After(sys, r1).tasks[j].leaseSpawned;
    var r2 := r1 + [RunLease(j)]; Extend(sys, r1, RunLease(j));
    assert r2 == [DropLease(j), RunLease(j)];
  }

  lemma FinishSettles(sys: System, j: nat)
    requires At(sys, j, Invoke, Working) && TaskOk(sys.tasks[j])
    ensures SettlesOnce(sys, [FinishSection(j), Disarm(j), DropLease(j)], j)
  {
    var r0 := [];
    var r1 := r0 + [FinishSection(j)]; Extend(sys, r0, FinishSection(j));
    assert At(After(sys, r1), j, Invoke, Unlocked);
    var r2 := r1 + [Disarm(j)]; Extend(sys, r1, Disarm(j));
    assert At(After(sys, r2), j, Invoke, Disarmed) && !After(sys, r2).tasks[j].armed;
    var r3 := r2 + [DropLease(j)]; Extend(sys, r2, DropLease(j));
    assert r3 == [FinishSection(j), Disarm(j), DropLease(j)];
  }

  /** An aborted job settles through its lease and a finished one through its own
      section, each exactly once. */
  lemma BothWaysOutSettleOnce(sys: System, j: nat)
    requires At(sys, j, Invoke, Working) && TaskOk(sys.tasks[j])
    ensures SettlesOnce(sys, [DropLease(j), RunLease(j)], j)
    ensures SettlesOnce(sys, [FinishSection(j), Disarm(j), DropLease(j)], j)
  {
    AbortSettles(sys, j);
    FinishSettles(sys, j);
  }


  predicate ClearsCount(a: Action) { a.Heal? || a.CancelClear? }

  /** A heal or cancel clear that fires while a job is still unsettled. */
  predicate Wipes(sys: System, a: Action)
  {
    && Unsettled(sys) != {}
    && match a
       case CancelClear => true
       case Heal(inFlight, anySlotBusy) => sys.session.count > 0 && !inFlight && !anySlotBusy
       case _ => false
  }

  predicate IsSplit(a: Action) { a.SplitCapture? || a.SplitAdmit? || a.SplitSettle? || a.SplitAbandon? }

  lemma CountStaysExact(sys: System, a: Action)
    requires Accounted(sys) && Enabled(sys, a) && sys.session.count == |Unsettled(sys)|
    requires !Wipes(sys, a) && (a.SplitAdmit? ==> sys.session.count < U32_MAX)
    ensures Act(sys, a).session.count == |Unsettled(Act(sys, a))|
  {
    if Touched(a).Some? {
      TaskStepCounts(sys, a);
      CountBounds(sys, Act(sys, a), Touched(a).value);
    } else {
      UnsettledStep(sys, a);
    }
  }

  /** In `respond_invoke`-only runs with no heal or clear the count is exact. */
  lemma {:induction false} InvokeOnlyRunsCountExactly(sys: System, actions: seq<Action>)
    requires Accounted(sys) && sys.session.count == |Unsettled(sys)| && IsRun(sys, actions)
    requires forall k :: 0 <= k < |actions| ==> !ClearsCount(actions[k]) && !IsSplit(actions[k])
    ensures After(sys, actions).session.count == |Unsettled(After(sys, actions))|
    decreases |actions|
  {
    if actions != [] {
      assert !ClearsCount(actions[0]) && !IsSplit(actions[0]);
      ActKeepsAccounted(sys, actions[0]);
      CountStaysExact(sys, actions[0]);
      InvokeOnlyRunsCountExactly(Act(sys, actions[0]), actions[1..]);
    }
  }

  // ---- when split jobs leak ----

  /** No heal or clear fires under an unsettled job and the counter does not
      saturate; any number of restarts may be in flight. */
  predicate Counted(sys: System, actions: seq<Action>)
    requires IsRun(sys, actions)
    decreases |actions|
  {
    actions != [] ==>
      && !Wipes(sys, actions[0]) && (actions[0].SplitAdmit? ==> sys.session.count < U32_MAX)
      && Counted(Act(sys, actions[0]), actions[1..])
  }

  lemma {:induction false} CountedRunsCountExactly(sys: System, actions: seq<Action>)
    requires Accounted(sys) && sys.session.count == |Unsettled(sys)| && IsRun(sys, actions) && Counted(sys, actions)
    ensures After(sys, actions).session.count == |Unsettled(After(sys, actions))|
    decreases |actions|
  {
    if actions != [] {
      ActKeepsAccounted(sys, actions[0]);
      CountStaysExact(sys, actions[0]);
      CountedRunsCountExactly(Act(sys, actions[0]), actions[1..]);
    }
  }

  predicate Abandoned(sys: System, j: nat) { Owes(sys, j) && sys.tasks[j].kind.Split? && sys.tasks[j].pc.Gone? }

  predicate NoneAbandoned(sys: System) { forall j :: j in sys.tasks ==> !Abandoned(sys, j) }

  lemma StepAbandons(sys: System, a: Action)
    requires Enabled(sys, a) && Accounted(sys)
    ensures forall j :: Abandoned(sys, j) ==> Abandoned(Act(sys, a), j)
    ensures NoneAbandoned(sys) ==> (NoneAbandoned(Act(sys, a)) <==> !a.SplitAbandon?)
  {
    if a.SplitAbandon? { assert TaskOk(sys.tasks[a.j]) && Abandoned(Act(sys, a), a.j); }
  }

  lemma {:induction false} AbandonedForGood(sys: System, actions: seq<Action>, j: nat)
    requires Accounted(sys) && IsRun(sys, actions) && Abandoned(sys, j)
    ensures Abandoned(After(sys, actions), j)
    decreases |actions|
  {
    if actions != [] {
      ActKeepsAccounted(sys, actions[0]);
      StepAbandons(sys, actions[0]);
      AbandonedForGood(Act(sys, actions[0]), actions[1..], j);
    }
  }

  lemma {:induction false} AbandonedIff(sys: System, actions: seq<Action>)
    requires Accounted(sys) && IsRun(sys, actions) && NoneAbandoned(sys)
    ensures NoneAbandoned(After(sys, actions)) <==> forall k :: 0 <= k < |actions| ==> !actions[k].SplitAbandon?
    decreases |actions|
  {
    if actions != [] {
      var next := Act(sys, actions[0]);
      ActKeepsAccounted(sys, actions[0]);
      StepAbandons(sys, actions[0]);
      if actions[0].SplitAbandon? {
        var j :| j in next.tasks && Abandoned(next, j);
        AbandonedForGood(next, actions[1..], j);
        assert actions[0].SplitAbandon?;
      } else {
        AbandonedIff(next, actions[1..]);
        assert forall k :: 0 < k < |actions| ==> actions[k] == actions[1..][k - 1];
      }
    }
  }

  predicate AllOver(sys: System) { forall j :: j in sys.tasks ==> sys.tasks[j].pc.Gone? && !sys.tasks[j].leaseSpawned }

  /** When every job is over and no lease is pending, the count is back at zero
      exactly when no split job died between its admission and its settling. */
  lemma SplitLeakIff(sys: System, actions: seq<Action>)
    requires Accounted(sys) && sys.session.count == |Unsettled(sys)| && NoneAbandoned(sys)
    requires IsRun(sys, actions) && Counted(sys, actions) && AllOver(After(sys, actions))
    ensures After(sys, actions).session.count == 0 <==> forall k :: 0 <= k < |actions| ==> !actions[k].SplitAbandon?
  {
    var end := After(sys, actions);
    EveryRunAccounts(sys, actions);
    CountedRunsCountExactly(sys, actions);
    AbandonedIff(sys, actions);
    EmptyUnsettled(end);
    forall j | j in end.tasks ensures j in Unsettled(end) <==> Abandoned(end, j) {
      assert TaskOk(end.tasks[j]);
    }
    if Unsettled(end) != {} {
      var j :| j in Unsettled(end);
      assert Abandoned(end, j);
    }
  }

  // ---- restart exclusion ----

  predicate InWindow(sys: System) { exists r :: r in sys.restarts && sys.restarts[r].Window? }

  predicate OneWindow(sys: System)
  {
    forall r, q :: r in sys.restarts && q in sys.restarts && sys.restarts[r].Window? && sys.restarts[q].Window? ==> r == q
  }

  /** A take that opens a window while another one is open. */
  predicate Overlaps(sys: System, a: Action) { a.Take? && sys.session.count == 0 && InWindow(sys) }

  predicate Unsaturated(sys: System, a: Action) { a.SplitAdmit? ==> sys.session.count < U32_MAX }

  /** A run in which no heal or clear fires under an unsettled job, no take
      overlaps an open window, and the u32 counter does not saturate. Any number
      of claimed restarts may be in flight. */
  predicate Calm(sys: System, actions: seq<Action>)
    requires IsRun(sys, actions)
    decreases |actions|
  {
    actions != [] ==>
      && !Wipes(sys, actions[0]) && !Overlaps(sys, actions[0]) && Unsaturated(sys, actions[0])
      && Calm(Act(sys, actions[0]), actions[1..])
  }

  predicate Excludes(sys: System)
  {
    && (InWindow(sys) ==> Unsettled(sys) == {})
    && (forall j :: j in Unsettled(sys) && sys.tasks[j].kind.Invoke? && sys.tasks[j].supervisor.Some? ==>
        sys.tasks[j].supervisor == sys.session.supervisor && sys.tasks[j].supervisor.value !in sys.shut)
  }

  predicate Exclusive(sys: System)
  {
    && Accounted(sys) && Excludes(sys) && OneWindow(sys)
    && sys.session.count == |Unsettled(sys)|
    && (sys.session.restarting <==> InWindow(sys))
    && (forall i :: i in sys.shut ==> i < sys.nextSupervisor)
    && (sys.session.supervisor.Some? ==>
        sys.session.supervisor.value < sys.nextSupervisor && sys.session.supervisor.value !in sys.shut)
    && (forall r :: r in sys.restarts && sys.restarts[r].Window? && sys.restarts[r].previous.Some? ==>
        sys.restarts[r].previous.value < sys.nextSupervisor)
    && (InWindow(sys) ==> sys.session.supervisor == None)
  }

  lemma EmptyUnsettled(sys: System)
    requires sys.session.count == |Unsettled(sys)|
    ensures sys.session.count == 0 <==> Unsettled(sys) == {}
  {
  }

  /** All a task step does outside the session's job fields. */
  predicate RewritesTask(sys: System, after: System, j: nat)
  {
    && after.session.supervisor == sys.session.supervisor && after.session.restarting == sys.session.restarting
    && after.shut == sys.shut && after.restarts == sys.restarts && after.nextSupervisor == sys.nextSupervisor
    && (after.tasks == sys.tasks || (j in after.tasks && after.tasks == sys.tasks[j := after.tasks[j]]))
    && (j in sys.tasks ==>
        && after.tasks[j].kind == sys.tasks[j].kind && after.tasks[j].supervisor == sys.tasks[j].supervisor
        && (after.tasks[j].settlements == 0 ==> sys.tasks[j].settlements == 0))
    && (j !in sys.tasks && j in after.tasks ==>
        !sys.session.restarting && (after.tasks[j].kind.Invoke? ==> after.tasks[j].supervisor == sys.session.supervisor))
  }

  lemma TaskStepRewrites(sys: System, a: Action)
    requires Enabled(sys, a) && Touched(a).Some?
    ensures RewritesTask(sys, Act(sys, a), Touched(a).value)
  {
  }

  lemma RewriteExcludes(sys: System, after: System, j: nat)
    requires Exclusive(sys) && RewritesTask(sys, after, j)
    ensures Excludes(after)
  {
    forall i | i in Unsettled(after)
      ensures i in Unsettled(sys) || i == j
      ensures i != j ==> after.tasks[i] == sys.tasks[i]
    {
    }
    if InWindow(after) {
      assert InWindow(sys);
      assert Unsettled(after) == {};
    }
  }

  lemma TaskStepKeepsExclusive(sys: System, a: Action)
    requires Exclusive(sys) && Enabled(sys, a) && Touched(a).Some?
    requires a.SplitAdmit? ==> sys.session.count < U32_MAX
    ensures Exclusive(Act(sys, a))
  {
    var after := Act(sys, a);
    ActKeepsAccounted(sys, a);
    CountStaysExact(sys, a);
    TaskStepRewrites(sys, a);
    RewriteExcludes(sys, after, Touched(a).value);
  }

  lemma RestartStepKeepsExclusive(sys: System, a: Action)
    requires Exclusive(sys) && Enabled(sys, a) && Touched(a).None?
    requires !Wipes(sys, a) && !Overlaps(sys, a)
    ensures Exclusive(Act(sys, a))
  {
    UnsettledStep(sys, a);
    ActKeepsAccounted(sys, a);
    CountStaysExact(sys, a);
    EmptyUnsettled(sys);
    var after := Act(sys, a);
    match a {
      case Install(r) => assert InWindow(sys) && !InWindow(after);
      case InstallFailed(r) => assert InWindow(sys) && !InWindow(after);
      case Take(r) =>
        assert !InWindow(sys);
        if sys.session.count == 0 { assert after.restarts[r].Window?; }
      case Shutdown(r) => assert InWindow(sys) && after.restarts == sys.restarts;
      case Claim(r, _) => assert forall q :: q in sys.restarts ==> after.restarts[q] == sys.restarts[q];
      case DetectFailed(r) =>
        assert forall q :: q in sys.restarts && sys.restarts[q].Window? ==> q in after.restarts && after.restarts[q].Window?;
      case _ =>
    }
  }

  /** In every calm run no unsettled job exists between taking the old supervisor
      and installing the new one, and no admitted `respond_invoke` job's
      supervisor is shut down while the job is unsettled. */
  lemma {:induction false} RestartExcludesJobs(sys: System, actions: seq<Action>)
    requires Exclusive(sys) && IsRun(sys, actions) && Calm(sys, actions)
    ensures Excludes(After(sys, actions)) && Exclusive(After(sys, actions))
    decreases |actions|
  {
    if actions != [] {
      StepKeepsExclusive(sys, actions[0]);
      RestartExcludesJobs(Act(sys, actions[0]), actions[1..]);
    }
  }

  // ---- when a split job's supervisor lives ----

  /** Every cloned supervisor is installed, being replaced, or already shut down. */
  predicate Traced(sys: System)
  {
    forall j :: j in sys.captured && sys.captured[j].Some? ==>
      || sys.captured[j] == sys.session.supervisor || sys.captured[j].value in sys.shut
      || exists r :: r in sys.restarts && sys.restarts[r] == Window(sys.captured[j])
  }

  lemma StepKeepsTraced(sys: System, a: Action)
    requires Exclusive(sys) && Traced(sys) && Enabled(sys, a)
    ensures Traced(Act(sys, a))
  {
    var after := Act(sys, a);
    if Touched(a).Some? {
      TaskStepRewrites(sys, a);
    } else {
      forall j | j in after.captured && after.captured[j].Some?
        ensures || after.captured[j] == after.session.supervisor || after.captured[j].value in after.shut
                || exists r :: r in after.restarts && after.restarts[r] == Window(after.captured[j])
      {
        if a.Take? && after.captured[j] == sys.session.supervisor && sys.session.count == 0 {
          assert after.restarts[a.r] == Window(after.captured[j]);
        } else if j in sys.captured && exists r :: r in sys.restarts && sys.restarts[r] == Window(sys.captured[j]) {
          var r :| r in sys.restarts && sys.restarts[r] == Window(sys.captured[j]);
          assert InWindow(sys);
          assert r in after.restarts ==> after.restarts[r] == sys.restarts[r];
        } else if a.Install? {
          assert InWindow(sys);
        }
      }
    }
  }

  lemma StepKeepsExclusive(sys: System, a: Action)
    requires Exclusive(sys) && Enabled(sys, a) && !Wipes(sys, a) && !Overlaps(sys, a) && Unsaturated(sys, a)
    ensures Exclusive(Act(sys, a))
  {
    if Touched(a).Some? { TaskStepKeepsExclusive(sys, a); } else { RestartStepKeepsExclusive(sys, a); }
  }

  lemma {:induction false} RunKeepsTraced(sys: System, actions: seq<Action>)
    requires Exclusive(sys) && Traced(sys) && IsRun(sys, actions) && Calm(sys, actions)
    ensures Exclusive(After(sys, actions)) && Traced(After(sys, actions))
    decreases |actions|
  {
    if actions != [] {
      StepKeepsExclusive(sys, actions[0]);
      StepKeepsTraced(sys, actions[0]);
      RunKeepsTraced(Act(sys, actions[0]), actions[1..]);
    }
  }

  /** The job is settled, or runs on the supervisor that is installed. */
  predicate Current(sys: System, j: nat)
  {
    j in sys.tasks && (Owes(sys, j) ==> sys.tasks[j].supervisor == sys.session.supervisor)
  }

  lemma StepKeepsCurrent(sys: System, a: Action, j: nat)
    requires Exclusive(sys) && Enabled(sys, a) && j in sys.tasks
    ensures j in Act(sys, a).tasks && Act(sys, a).tasks[j].supervisor == sys.tasks[j].supervisor
    ensures sys.shut <= Act(sys, a).shut && (Owes(Act(sys, a), j) ==> Owes(sys, j))
    ensures Current(sys, j) ==> Current(Act(sys, a), j)
  {
    if Touched(a).Some? {
      TaskStepRewrites(sys, a);
    } else {
      UnsettledStep(sys, a);
      assert Owes(sys, j) ==> j in Unsettled(sys) && sys.session.count > 0 && !InWindow(sys);
    }
  }

  lemma {:induction false} RunKeepsCurrent(sys: System, actions: seq<Action>, j: nat)
    requires Exclusive(sys) && IsRun(sys, actions) && Calm(sys, actions) && j in sys.tasks
    ensures var end := After(sys, actions);
      && Exclusive(end) && j in end.tasks && end.tasks[j].supervisor == sys.tasks[j].supervisor && sys.shut <= end.shut
      && (Current(sys, j) ==> Current(end, j))
    decreases |actions|
  {
    if actions != [] {
      StepKeepsExclusive(sys, actions[0]);
      StepKeepsCurrent(sys, actions[0], j);
      RunKeepsCurrent(Act(sys, actions[0]), actions[1..], j);
    }
  }

  /** One comparison in the admission section decides it: a split job admitted in
      a calm run is, at any later point where it is still unsettled, on a
      supervisor shut down exactly when the one it cloned was no longer the
      installed one at its admission. */
  lemma SplitJobSafeIff(before: seq<Action>, j: nat, id: string, after: seq<Action>)
    requires IsRun(Start(), before) && Calm(Start(), before)
    requires var sys := After(Start(), before);
      && Enabled(sys, SplitAdmit(j, id, false)) && !sys.session.restarting && sys.session.count < U32_MAX && sys.captured[j].Some?
    requires var mid := Act(After(Start(), before), SplitAdmit(j, id, false));
      IsRun(mid, after) && Calm(mid, after) && Owes(After(mid, after), j)
    ensures var sys := After(Start(), before);
      var end := After(Act(sys, SplitAdmit(j, id, false)), after);
      && end.tasks[j].supervisor == sys.captured[j]
      && (sys.captured[j].value in end.shut <==> sys.captured[j] != sys.session.supervisor)
  {
    var sys := After(Start(), before);
    var mid := Act(sys, SplitAdmit(j, id, false));
    StartIsExclusive();
    RunKeepsTraced(Start(), before);
    assert !InWindow(sys);
    StepKeepsExclusive(sys, SplitAdmit(j, id, false));
    RunKeepsCurrent(mid, after, j);
    var end := After(mid, after);
    if sys.captured[j] == sys.session.supervisor {
      assert Current(mid, j) && Current(end, j);
      assert end.session.supervisor == sys.captured[j];
    } else {
      assert sys.captured[j].value in sys.shut;
    }
  }

  lemma StartIsExclusive()
    ensures Exclusive(Start())
  {
    assert Unsettled(Start()) == {};
  }

  // ---- exactly these runs are safe ----

  lemma {:induction false} Extend(sys: System, run: seq<Action>, a: Action)
    requires IsRun(sys, run) && Enabled(After(sys, run), a)
    ensures IsRun(sys, run + [a]) && After(sys, run + [a]) == Act(After(sys, run), a)
    ensures (Calm(sys, run) && !Wipes(After(sys, run), a) && !Overlaps(After(sys, run), a)
      && Unsaturated(After(sys, run), a)) ==> Calm(sys, run + [a])
    decreases |run|
  {
    if run == [] {
      assert [] + [a] == [a] && [a][1..] == [];
      assert IsRun(Act(sys, a), [a][1..]);
    } else {
      assert (run + [a])[0] == run[0] && (run + [a])[1..] == run[1..] + [a];
      Extend(Act(sys, run[0]), run[1..], a);
    }
  }

  /** No calm continuation breaks exclusion. */
  ghost predicate StaysExclusive(sys: System)
  {
    forall more: seq<Action> :: IsRun(sys, more) && Calm(sys, more) ==> Excludes(After(sys, more))
  }

  lemma ExclusiveStays(sys: System)
    requires Exclusive(sys)
    ensures StaysExclusive(sys)
  {
    forall more: seq<Action> | IsRun(sys, more) && Calm(sys, more) ensures Excludes(After(sys, more)) {
      RestartExcludesJobs(sys, more);
    }
  }

  lemma {:induction false} Beyond(s: set<nat>) returns (k: nat)
    ensures k !in s && forall x :: x in s ==> x < k
    decreases s
  {
    if s == {} {
      k := 0;
    } else {
      var x :| x in s;
      var k' := Beyond(s - {x});
      k := Max(k', x + 1);
      assert forall y :: y in s ==> y == x || y in s - {x};
    }
  }

  /** At a zero count a restart can open its window. */
  lemma WindowOpens(sys: System, r: nat) returns (run: seq<Action>)
    requires sys.session.count == 0 && !InWindow(sys) && r !in sys.restarts
    ensures IsRun(sys, run) && Calm(sys, run)
    ensures InWindow(After(sys, run)) && After(sys, run).tasks == sys.tasks
  {
    var r0 := [];
    var r1 := r0 + [RequestRestart]; Extend(sys, r0, RequestRestart);
    var r2 := r1 + [Claim(r, false)]; Extend(sys, r1, Claim(r, false));
    assert After(sys, r2).restarts == sys.restarts[r := Claimed] && !InWindow(After(sys, r2));
    run := r2 + [Take(r)]; Extend(sys, r2, Take(r));
    assert After(sys, run).restarts[r].Window?;
  }

  /** After a heal or clear under an unsettled job, one more restart opens its
      window over that job. */
  lemma WipeCanBreak(sys: System, a: Action)
    requires Exclusive(sys) && Enabled(sys, a) && Wipes(sys, a)
    ensures !StaysExclusive(Act(sys, a))
  {
    var next := Act(sys, a);
    assert next == sys.(session := Idle(sys.session));
    var r := Beyond(next.restarts.Keys);
    var run := WindowOpens(next, r);
    assert Unsettled(After(next, run)) == Unsettled(sys);
    assert !Excludes(After(next, run));
  }

  /** Some window closes with a new supervisor; the others stay open. */
  lemma WindowCloses(sys: System, w: nat) returns (run: seq<Action>)
    requires w in sys.restarts && sys.restarts[w].Window?
    ensures IsRun(sys, run) && Calm(sys, run)
    ensures After(sys, run).session == Finishing(sys.session, Some(sys.nextSupervisor))
    ensures After(sys, run).tasks == sys.tasks && After(sys, run).restarts == sys.restarts - {w}
  {
    var r0 := [];
    var r1 := r0 + [Shutdown(w)]; Extend(sys, r0, Shutdown(w));
    assert PreviousDown(After(sys, r1), w);
    run := r1 + [Install(w)]; Extend(sys, r1, Install(w));
  }

  /** After an overlapping take, the end of the first restart reopens admission
      inside the second one's window. */
  lemma OverlapCanBreak(sys: System, a: Action)
    requires Exclusive(sys) && Enabled(sys, a) && Overlaps(sys, a)
    ensures !StaysExclusive(Act(sys, a))
  {
    var next := Act(sys, a);
    var w :| w in sys.restarts && sys.restarts[w].Window?;
    assert w != a.r && next.restarts[w] == sys.restarts[w];
    var run := WindowCloses(next, w);
    var reopened := After(next, run);
    assert reopened.restarts[a.r].Window?;
    var j := Beyond(reopened.tasks.Keys);
    Extend(next, run, Admit(j, "job", false));
    AdmittedIsUnsettled(reopened, j);
    assert !Excludes(After(next, run + [Admit(j, "job", false)]));
  }

  lemma AdmittedIsUnsettled(sys: System, j: nat)
    requires j !in sys.tasks && MayAdmit(sys.session, false)
    ensures var after := Act(sys, Admit(j, "job", false)); after.restarts == sys.restarts && j in Unsettled(after)
  {
  }

  /** One step of an exclusive state is safe exactly when it neither wipes nor
      overlaps: the guards of the clearing and of the taking section. */
  lemma StepSafeIff(sys: System, a: Action)
    requires Exclusive(sys) && Enabled(sys, a) && Unsaturated(sys, a)
    ensures StaysExclusive(Act(sys, a)) <==> !Wipes(sys, a) && !Overlaps(sys, a)
  {
    if Wipes(sys, a) {
      WipeCanBreak(sys, a);
    } else if Overlaps(sys, a) {
      OverlapCanBreak(sys, a);
    } else {
      StepKeepsExclusive(sys, a);
      ExclusiveStays(Act(sys, a));
    }
  }

  predicate NeverSaturates(sys: System, actions: seq<Action>)
    requires IsRun(sys, actions)
    decreases |actions|
  {
    actions != [] ==> Unsaturated(sys, actions[0]) && NeverSaturates(Act(sys, actions[0]), actions[1..])
  }

  /** Exclusion holds now, and after every step nothing calm can break it. */
  ghost predicate AlwaysExclusive(sys: System, actions: seq<Action>)
    requires IsRun(sys, actions)
    decreases |actions|
  {
    StaysExclusive(sys) && (actions != [] ==> AlwaysExclusive(Act(sys, actions[0]), actions[1..]))
  }

  /** Whole runs: exclusion is beyond breaking all along exactly in calm runs. */
  lemma {:induction false} ExclusionIffCalm(sys: System, actions: seq<Action>)
    requires Exclusive(sys) && IsRun(sys, actions) && NeverSaturates(sys, actions)
    ensures AlwaysExclusive(sys, actions) <==> Calm(sys, actions)
    decreases |actions|
  {
    ExclusiveStays(sys);
    if actions != [] {
      StepSafeIff(sys, actions[0]);
      if !Wipes(sys, actions[0]) && !Overlaps(sys, actions[0]) {
        StepKeepsExclusive(sys, actions[0]);
        ExclusionIffCalm(Act(sys, actions[0]), actions[1..]);
      }
    }
  }

  predicate OneRestart(sys: System)
  {
    forall r, q :: r in sys.restarts && q in sys.restarts ==> r == q
  }

  /** At most one restart in flight at any time, and nothing wiped. */
  predicate OneAtATime(sys: System, actions: seq<Action>)
    requires IsRun(sys, actions)
    decreases |actions|
  {
    && OneRestart(sys)
    && (actions != [] ==>
      && !Wipes(sys, actions[0]) && Unsaturated(sys, actions[0]) && OneAtATime(Act(sys, actions[0]), actions[1..]))
  }

  /** So runs with at most one restart in flight are calm. */
  lemma {:induction false} OneAtATimeIsCalm(sys: System, actions: seq<Action>)
    requires IsRun(sys, actions) && OneAtATime(sys, actions)
    ensures Calm(sys, actions)
    decreases |actions|
  {
    if actions != [] { OneAtATimeIsCalm(Act(sys, actions[0]), actions[1..]); }
  }

  /** Two refreshes claim a restart each: the pending flag is set again meanwhile. */
  lemma TwoClaims() returns (run: seq<Action>)
    ensures IsRun(Start(), run) && forall k :: 0 <= k < |run| ==> !ClearsCount(run[k])
    ensures After(Start(), run) == Start().(restarts := map[1 := Claimed, 2 := Claimed])
  {
    var r0 := [];
    var r1 := r0 + [RequestRestart]; Extend(Start(), r0, RequestRestart);
    var r2 := r1 + [Claim(1, false)]; Extend(Start(), r1, Claim(1, false));
    assert After(Start(), r2) == Start().(restarts := map[1 := Claimed]);
    var r3 := r2 + [RequestRestart]; Extend(Start(), r2, RequestRestart);
    run := r3 + [Claim(2, false)]; Extend(Start(), r3, Claim(2, false));
  }

  lemma TwoTakes() returns (run: seq<Action>)
    ensures IsRun(Start(), run) && forall k :: 0 <= k < |run| ==> !ClearsCount(run[k])
    ensures After(Start(), run) == Start().(session := Start().session.(restarting := true, supervisor := None),
        restarts := map[1 := Window(Some(0)), 2 := Window(None)])
  {
    var r4 := TwoClaims();
    var r5 := r4 + [Take(1)]; Extend(Start(), r4, Take(1));
    run := r5 + [Take(2)]; Extend(Start(), r5, Take(2));
  }

  /** Both take the supervisor slot, then the first one installs. */
  lemma ReopenedWindow() returns (run: seq<Action>)
    ensures IsRun(Start(), run) && forall k :: 0 <= k < |run| ==> !ClearsCount(run[k])
    ensures After(Start(), run) == Start().(session := Start().session.(supervisor := Some(1)),
        restarts := map[2 := Window(None)], shut := {0}, nextSupervisor := 2)
  {
    var r6 := TwoTakes();
    var r7 := r6 + [Shutdown(1)]; Extend(Start(), r6, Shutdown(1));
    run := r7 + [Install(1)]; Extend(Start(), r7, Install(1));
  }

  /** With two restarts in flight, the first one's install reopens admission
      inside the second one's window. */
  lemma SecondRestartBreaksExclusion()
    ensures exists run: seq<Action> ::
      && IsRun(Start(), run) && (forall k :: 0 <= k < |run| ==> !ClearsCount(run[k]))
      && InWindow(After(Start(), run)) && 0 in Unsettled(After(Start(), run)) && After(Start(), run).tasks[0].kind.Invoke?
  {
    var r7 := ReopenedWindow();
    var r8 := r7 + [Admit(0, "job", false)]; Extend(Start(), r7, Admit(0, "job", false));
    assert After(Start(), r8).restarts[2].Window?;
    assert 0 in Unsettled(After(Start(), r8));
  }

  /** A heal that misreads a live job as stale, with a restart asked for. */
  lemma HealedWhileRunning() returns (run: seq<Action>)
    ensures IsRun(Start(), run)
    ensures After(Start(), run) == Start().(session := Start().session.(pending := true),
        tasks := map[0 := Task(Invoke, Working, true, false, 0, Some(0))])
  {
    var r0 := [];
    var r1 := r0 + [RequestRestart]; Extend(Start(), r0, RequestRestart);
    var r2 := r1 + [Admit(0, "job", false)]; Extend(Start(), r1, Admit(0, "job", false));
    run := r2 + [Heal(false, false)]; Extend(Start(), r2, Heal(false, false));
  }

  /** After such a heal a restart shuts the live job's supervisor down. */
  lemma HealBreaksExclusion()
    ensures exists run: seq<Action> ::
      && IsRun(Start(), run) && 0 in Unsettled(After(Start(), run)) && After(Start(), run).tasks[0].kind.Invoke?
      && After(Start(), run).tasks[0].supervisor == Some(0) && 0 in After(Start(), run).shut
  {
    var r3 := HealedWhileRunning();
    var r4 := r3 + [Claim(1, false)]; Extend(Start(), r3, Claim(1, false));
    var r5 := r4 + [Take(1)]; Extend(Start(), r4, Take(1));
    assert After(Start(), r5).restarts == map[1 := Window(Some(0))];
    var r6 := r5 + [Shutdown(1)]; Extend(Start(), r5, Shutdown(1));
    assert 0 in Unsettled(After(Start(), r6));
  }

  /** A split request clones supervisor 0, then a restart takes it. */
  lemma CapturedBeforeRestart() returns (run: seq<Action>)
    ensures IsRun(Start(), run) && Calm(Start(), run)
    ensures After(Start(), run) == Start().(session := Start().session.(restarting := true, supervisor := None),
        captured := map[0 := Some(0)], restarts := map[1 := Window(Some(0))])
  {
    var r0 := [];
    var r1 := r0 + [SplitCapture(0)]; Extend(Start(), r0, SplitCapture(0));
    var r2 := r1 + [RequestRestart]; Extend(Start(), r1, RequestRestart);
    var r3 := r2 + [Claim(1, false)]; Extend(Start(), r2, Claim(1, false));
    run := r3 + [Take(1)]; Extend(Start(), r3, Take(1));
  }

  /** `respond_invoke_split` clones the supervisor before its admission section,
      so even a calm run admits a split job onto a supervisor already shut down. */
  lemma SplitJobMayUseShutSupervisor()
    ensures exists run: seq<Action> ::
      && IsRun(Start(), run) && Calm(Start(), run) && 0 in Unsettled(After(Start(), run))
      && After(Start(), run).tasks[0].kind.Split?
      && After(Start(), run).tasks[0].supervisor == Some(0) && 0 in After(Start(), run).shut
  {
    var r4 := CapturedBeforeRestart();
    var r5 := r4 + [Shutdown(1)]; Extend(Start(), r4, Shutdown(1));
    var r6 := r5 + [Install(1)]; Extend(Start(), r5, Install(1));
    var r7 := r6 + [SplitAdmit(0, "split", false)]; Extend(Start(), r6, SplitAdmit(0, "split", false));
    assert 0 in Unsettled(After(Start(), r7));
  }

  /** A split task has no lease: one that dies after admission leaves the
      machine Busy although every task is over and no decrement is pending. */
  lemma AbandonedSplitLeaksCount()
    ensures exists run: seq<Action> ::
      && IsRun(Start(), run)
      && (var end := After(Start(), run);
          && end.session.busy && end.session.count == 1
          && forall j :: j in end.tasks ==> end.tasks[j].pc.Gone? && !end.tasks[j].leaseSpawned)
  {
    var r0 := [];
    var r1 := r0 + [SplitCapture(0)]; Extend(Start(), r0, SplitCapture(0));
    var r2 := r1 + [SplitAdmit(0, "split", false)]; Extend(Start(), r1, SplitAdmit(0, "split", false));
    var r3 := r2 + [SplitAbandon(0)]; Extend(Start(), r2, SplitAbandon(0));
    assert After(Start(), r3).session.busy;
  }
}
