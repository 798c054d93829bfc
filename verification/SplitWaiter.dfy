/** `wait_inbound_split_state` as a state machine over its lock-delimited steps,
    interleaved with the rest of the session. `notify_waiters` wakes only a task
    that is already asleep on that notifier, so a wakeup can be lost. */
module SplitWaiter {
  import opened Base
  import opened SplitTransfer

  datatype Wait = Wait(id: string, total: nat, deadline: int)

  datatype Phase =
    | Turning                                  // about to take the session lock
    | Checked(notify: nat, at: int)            // found the text incomplete, lock released
    | Asleep(notify: nat)                      // in `timeout(remain, notified())`
    | Expiring(checkedAt: int, computedAt: int)
    | Returned(text: Bytes)
    | TimedOut(checked: int, computed: int, completeAt: Option<int>)
    | Mismatched

  /** `arrived` and `completeSince` are history: which pieces of the id are
      here, and since when all of them are. */
  datatype System = System(inbox: Inbox, phase: Phase, now: int, arrived: set<nat>, completeSince: Option<int>)

  datatype Action =
    | Other(t: int, event: Event)  // another task's critical section
    | Turn(t: int)
    | Compute(t: int)              // `remain = deadline - now`
    | Elapse(t: int)               // the timeout fires
    | GiveUp(t: int)

  /** The notifier a push signals: only a newly stored part does. */
  function Signalled(s: Inbox, m: Chunk): Option<nat>
  {
    var after := Push(s, m).0;
    if m.id in after.entries && (m.id in s.entries ==> after.entries[m.id].have != s.entries[m.id].have)
       && after.entries[m.id].have > 0
    then Some(after.entries[m.id].notify) else None
  }

  predicate Enabled(w: Wait, sys: System, a: Action)
  {
    && sys.now <= a.t
    && match a
       case Other(_, _) => true
       case Turn(_) => sys.phase.Turning?
       case Compute(_) => sys.phase.Checked?
       case Elapse(t) => sys.phase.Asleep? && w.deadline <= t
       case GiveUp(_) => sys.phase.Expiring?
  }

  /** The pieces of the id after another task's section: a push adds one or, over
      the ceiling, drops them all; another waiter may take or expire the entry. */
  function ArrivedAfter(w: Wait, sys: System, e: Event): set<nat>
  {
    match e
    case Pushed(m) =>
      if m.id != w.id then sys.arrived
      else (match Push(sys.inbox, m).1
            case Accepted => sys.arrived + {m.index}
            case OverCeiling => {}
            case _ => sys.arrived)
    case Polled(i, total) => if i == w.id && Poll(sys.inbox, i, total).1.Assembled? then {} else sys.arrived
    case Expired(i) => if i == w.id then {} else sys.arrived
    case CeilingAdvertised(_) => sys.arrived
  }

  function Arrive(w: Wait, sys: System, inbox: Inbox, arrived: set<nat>, phase: Phase, t: int): System
  {
    System(inbox, phase, t, arrived,
      if arrived != AllIndices(w.total) then None
      else if sys.completeSince.Some? then sys.completeSince else Some(t))
  }

  function Act(w: Wait, sys: System, a: Action): System
    requires Enabled(w, sys, a)
  {
    match a
    case Other(t, e) =>
      var woken := e.Pushed? && sys.phase.Asleep? && Signalled(sys.inbox, e.m) == Some(sys.phase.notify);
      Arrive(w, sys, Step(sys.inbox, e),
        ArrivedAfter(w, sys, e), if woken then Turning else sys.phase, t)
    case Turn(t) =>
      var (inbox, r) := Poll(sys.inbox, w.id, w.total);
      (match r
       case Assembled(text) => Arrive(w, sys, inbox, {}, Returned(text), t)
       case Waiting(g) => Arrive(w, sys, inbox, sys.arrived, Checked(g, t), t)
       case PollMismatch => Arrive(w, sys, inbox, sys.arrived, Mismatched, t))
    case Compute(t) =>
      Arrive(w, sys, sys.inbox, sys.arrived,
        if w.deadline <= t then Expiring(sys.phase.at, t) else Asleep(sys.phase.notify), t)
    case Elapse(t) => Arrive(w, sys, sys.inbox, sys.arrived, Turning, t)
    case GiveUp(t) =>
      Arrive(w, sys, Without(sys.inbox, w.id), {}, TimedOut(sys.phase.checkedAt, sys.phase.computedAt, sys.completeSince), t)
  }

  predicate IsRun(w: Wait, sys: System, actions: seq<Action>)
    decreases |actions|
  {
    actions == [] || (Enabled(w, sys, actions[0]) && IsRun(w, Act(w, sys, actions[0]), actions[1..]))
  }

  function AfterRun(w: Wait, sys: System, actions: seq<Action>): System
    requires IsRun(w, sys, actions)
    decreases |actions|
  {
    if actions == [] then sys else AfterRun(w, Act(w, sys, actions[0]), actions[1..])
  }

  /** The check and its deadline computation happen at one instant. */
  predicate Atomic(w: Wait, sys: System, actions: seq<Action>)
    requires IsRun(w, sys, actions)
    decreases |actions|
  {
    actions != [] ==>
      && (actions[0].Compute? ==> actions[0].t == sys.phase.at)
      && Atomic(w, Act(w, sys, actions[0]), actions[1..])
  }

  /** Under this id travel only chunks of the text, and every waiter on it asks
      for the sender's count. Ceilings and removals are unrestricted. */
  predicate Sends(e: Event, id: string, text: Bytes)
  {
    match e
    case Pushed(m) => m.id == id ==> IsChunkOf(m, text)
    case Polled(i, total) => i == id ==> total == |Parts(text)|
    case _ => true
  }

  predicate Transfers(w: Wait, text: Bytes, actions: seq<Action>)
  {
    forall k :: 0 <= k < |actions| && actions[k].Other? ==> Sends(actions[k].event, w.id, text)
  }

  predicate Invariant(w: Wait, text: Bytes, sys: System)
  {
    && text != [] && w.total == |Parts(text)|
    && Holds(sys.inbox, w.id, text, sys.arrived)
    && (sys.completeSince.Some? <==> sys.arrived == AllIndices(w.total))
    && (sys.completeSince.Some? ==> sys.completeSince.value <= sys.now)
    && match sys.phase
       case Checked(_, at) => at <= sys.now && (sys.completeSince.Some? ==> at <= sys.completeSince.value)
       case Expiring(c, d) => c <= d && w.deadline <= d <= sys.now && (sys.completeSince.Some? ==> c <= sys.completeSince.value)
       case Returned(x) => x == text
       case TimedOut(c, d, since) => c <= d && w.deadline <= d && (since.Some? ==> c <= since.value)
       case Mismatched => false
       case _ => true
  }

  predicate Starts(w: Wait, text: Bytes, sys: System)
  {
    && text != [] && w.total == |Parts(text)|
    && w.id !in sys.inbox.entries && sys.phase == Turning && sys.arrived == {} && sys.completeSince == None
  }

  lemma NonEmptyTotal(text: Bytes)
    requires text != []
    ensures AllIndices(|Parts(text)|) != {}
  {
    assert 0 in AllIndices(|Parts(text)|);
  }

  lemma EventHolds(w: Wait, text: Bytes, sys: System, e: Event)
    requires Invariant(w, text, sys) && Sends(e, w.id, text)
    ensures Holds(Step(sys.inbox, e), w.id, text, ArrivedAfter(w, sys, e))
  {
    if !Touches(e, w.id) {
      OthersDoNotTouch(sys.inbox, e, w.id, text, sys.arrived);
    } else if e.Pushed? {
      PushHolds(sys.inbox, e.m, text, sys.arrived);
    } else if e.Polled? {
      PollHolds(sys.inbox, w.id, text, sys.arrived);
    }
  }

  lemma ActKeeps(w: Wait, text: Bytes, sys: System, a: Action)
    requires Invariant(w, text, sys) && Enabled(w, sys, a)
    requires a.Other? ==> Sends(a.event, w.id, text)
    ensures Invariant(w, text, Act(w, sys, a))
  {
    NonEmptyTotal(text);
    match a {
      case Other(_, e) => EventHolds(w, text, sys, e);
      case Turn(_) => PollHolds(sys.inbox, w.id, text, sys.arrived);
      case _ =>
    }
  }

  lemma {:induction false} RunKeeps(w: Wait, text: Bytes, sys: System, actions: seq<Action>)
    requires Invariant(w, text, sys) && IsRun(w, sys, actions) && Transfers(w, text, actions)
    ensures Invariant(w, text, AfterRun(w, sys, actions))
    decreases |actions|
  {
    if actions != [] {
      ActKeeps(w, text, sys, actions[0]);
      RunKeeps(w, text, Act(w, sys, actions[0]), actions[1..]);
    }
  }

  predicate NoGap(phase: Phase)
  {
    && (phase.Expiring? ==> phase.checkedAt == phase.computedAt)
    && (phase.TimedOut? ==> phase.checked == phase.computed)
  }

  lemma {:induction false} AtomicHasNoGap(w: Wait, sys: System, actions: seq<Action>)
    requires IsRun(w, sys, actions) && Atomic(w, sys, actions) && NoGap(sys.phase)
    ensures NoGap(AfterRun(w, sys, actions).phase)
    decreases |actions|
  {
    if actions != [] {
      AtomicHasNoGap(w, Act(w, sys, actions[0]), actions[1..]);
    }
  }

  /** In every run a waiter returns only the sender's text; and when it times
      out although all pieces were here before the deadline, the last check came
      before the last piece and the deadline computation after the deadline. */
  lemma TimeoutStraddlesDeadline(w: Wait, text: Bytes, sys: System, actions: seq<Action>)
    requires Starts(w, text, sys) && IsRun(w, sys, actions) && Transfers(w, text, actions)
    ensures var end := AfterRun(w, sys, actions).phase;
      && (end.Returned? ==> end.text == text) && !end.Mismatched?
      && (end.TimedOut? && end.completeAt.Some? ==> end.checked <= end.completeAt.value && w.deadline <= end.computed)
  {
    NonEmptyTotal(text);
    RunKeeps(w, text, sys, actions);
  }

  /** Lost wakeups are harmless: with each check and its deadline computation at
      one instant, no run times out once every piece is here before the deadline. */
  lemma LostWakeupsAreHarmless(w: Wait, text: Bytes, sys: System, actions: seq<Action>)
    requires Starts(w, text, sys) && IsRun(w, sys, actions) && Transfers(w, text, actions)
    requires Atomic(w, sys, actions)
    ensures var end := AfterRun(w, sys, actions).phase;
      end.TimedOut? && end.completeAt.Some? ==> w.deadline <= end.completeAt.value
  {
    TimeoutStraddlesDeadline(w, text, sys, actions);
    AtomicHasNoGap(w, sys, actions);
  }

  /** Whatever notifier it sleeps on, live or orphaned, the timeout alone gets a
      waiter whose pieces are complete to the text, at the deadline at latest. */
  lemma CompleteWaiterReturns(w: Wait, text: Bytes, sys: System, t: int)
    requires Invariant(w, text, sys) && sys.arrived == AllIndices(w.total) && sys.now <= t
    ensures sys.phase.Turning? ==> Act(w, sys, Turn(t)).phase == Returned(text)
    ensures sys.phase.Asleep? && w.deadline <= t ==>
      IsRun(w, sys, [Elapse(t), Turn(t)]) && AfterRun(w, sys, [Elapse(t), Turn(t)]).phase == Returned(text)
    ensures sys.phase.Checked? && t < w.deadline ==>
      var run := [Compute(t), Elapse(w.deadline), Turn(w.deadline)];
      IsRun(w, sys, run) && AfterRun(w, sys, run).phase == Returned(text)
  {
    PollHolds(sys.inbox, w.id, text, sys.arrived);
    if sys.phase.Asleep? && w.deadline <= t {
      var s1 := Act(w, sys, Elapse(t));
      var run := [Elapse(t), Turn(t)];
      assert run[1..] == [Turn(t)] && [Turn(t)][1..] == [];
      assert IsRun(w, s1, run[1..]);
      assert AfterRun(w, s1, run[1..]) == Act(w, s1, Turn(t));
    } else if sys.phase.Checked? && t < w.deadline {
      var run := [Compute(t), Elapse(w.deadline), Turn(w.deadline)];
      var s1 := Act(w, sys, run[0]);
      var s2 := Act(w, s1, run[1]);
      assert run[1..] == [run[1], run[2]] && run[1..][1..] == [run[2]] && [run[2]][1..] == [];
      assert IsRun(w, s2, run[1..][1..]);
      assert IsRun(w, s1, run[1..]);
      assert AfterRun(w, s2, run[1..][1..]) == Act(w, s2, run[2]);
      assert AfterRun(w, s1, run[1..]) == Act(w, s2, run[2]);
    }
  }

  /** A live notifier needs no timeout: the push of a missing piece wakes it. */
  lemma NewPieceWakesSleeper(w: Wait, text: Bytes, sys: System, m: Chunk)
    requires Invariant(w, text, sys) && IsChunkOf(m, text) && m.id == w.id && m.index !in sys.arrived
    requires |text| <= sys.inbox.ceiling
    requires sys.phase.Asleep? && w.id in sys.inbox.entries && sys.inbox.entries[w.id].notify == sys.phase.notify
    ensures Act(w, sys, Other(sys.now, Pushed(m))).phase == Turning
  {
    PushHolds(sys.inbox, m, text, sys.arrived);
  }

  // ---- what a late computation loses ----

  lemma {:induction false} ExpiringNeverReturns(w: Wait, sys: System, actions: seq<Action>)
    requires IsRun(w, sys, actions) && (sys.phase.Expiring? || sys.phase.TimedOut?)
    ensures AfterRun(w, sys, actions).phase.Expiring? || AfterRun(w, sys, actions).phase.TimedOut?
    decreases |actions|
  {
    if actions != [] { ExpiringNeverReturns(w, Act(w, sys, actions[0]), actions[1..]); }
  }

  ghost predicate CanReturn(w: Wait, text: Bytes, sys: System)
  {
    exists more: seq<Action> :: IsRun(w, sys, more) && AfterRun(w, sys, more).phase == Returned(text)
  }

  /** In any state where the waiter has found the text incomplete and all pieces
      are here by now, it loses the text for good exactly when it computes its
      remaining time at or after the deadline. */
  lemma LateComputeLosesIff(w: Wait, text: Bytes, sys: System, t: int)
    requires Invariant(w, text, sys) && sys.phase.Checked? && sys.arrived == AllIndices(w.total) && sys.now <= t
    ensures CanReturn(w, text, Act(w, sys, Compute(t))) <==> t < w.deadline
  {
    var next := Act(w, sys, Compute(t));
    if t < w.deadline {
      ActKeeps(w, text, sys, Compute(t));
      CompleteWaiterReturns(w, text, next, w.deadline);
      assert IsRun(w, next, [Elapse(w.deadline), Turn(w.deadline)]);
    } else {
      forall more: seq<Action> | IsRun(w, next, more) ensures AfterRun(w, next, more).phase != Returned(text) {
        ExpiringNeverReturns(w, next, more);
      }
    }
  }

  // ---- orphaned sleepers ----

  lemma {:induction false} Extend(w: Wait, sys: System, run: seq<Action>, a: Action)
    requires IsRun(w, sys, run) && Enabled(w, AfterRun(w, sys, run), a)
    ensures IsRun(w, sys, run + [a]) && AfterRun(w, sys, run + [a]) == Act(w, AfterRun(w, sys, run), a)
    ensures (Atomic(w, sys, run) && (a.Compute? ==> a.t == AfterRun(w, sys, run).phase.at)) ==> Atomic(w, sys, run + [a])
    decreases |run|
  {
    if run == [] {
      assert [] + [a] == [a] && [a][1..] == [];
      assert IsRun(w, Act(w, sys, a), [a][1..]) && AfterRun(w, Act(w, sys, a), [a][1..]) == Act(w, sys, a);
    } else {
      assert (run + [a])[0] == run[0] && (run + [a])[1..] == run[1..] + [a];
      Extend(w, Act(w, sys, run[0]), run[1..], a);
    }
  }

  /** The waiter sleeps on a notifier no entry has any more. */
  predicate Orphaned(w: Wait, sys: System)
  {
    sys.phase.Asleep? && (w.id in sys.inbox.entries ==> sys.inbox.entries[w.id].notify != sys.phase.notify)
  }

  /** In every run: a sleeper whose pieces are complete, orphaned or not, is
      returned the text once the timeout fires. */
  lemma {:induction false} OrphanStillReturns(w: Wait, text: Bytes, sys: System, actions: seq<Action>, t: int)
    requires Starts(w, text, sys) && IsRun(w, sys, actions) && Transfers(w, text, actions)
    requires AfterRun(w, sys, actions).phase.Asleep? && AfterRun(w, sys, actions).arrived == AllIndices(w.total)
    requires AfterRun(w, sys, actions).now <= t && w.deadline <= t
    ensures var run := actions + [Elapse(t)] + [Turn(t)];
      IsRun(w, sys, run) && AfterRun(w, sys, run).phase == Returned(text)
  {
    NonEmptyTotal(text);
    RunKeeps(w, text, sys, actions);
    PollHolds(AfterRun(w, sys, actions).inbox, w.id, text, AfterRun(w, sys, actions).arrived);
    Extend(w, sys, actions, Elapse(t));
    Extend(w, sys, actions + [Elapse(t)], Turn(t));
  }

  const ONE_PIECE: Bytes := [7]

  const WAIT: Wait := Wait("job", 1, 10)

  const FRESH: System := System(Inbox(WS_HARD_MAX_BYTES, map[], 0), Turning, 0, {}, None)

  const PIECE: Chunk := Chunk("job", 0, 1, [7])

  lemma OnePieceParts()
    ensures Parts(ONE_PIECE) == [ONE_PIECE] && AllIndices(1) == {0} && Starts(WAIT, ONE_PIECE, FRESH)
  {
    NonEmptyTotal(ONE_PIECE);
    assert AllIndices(1) == AllIndices(0) + {0};
  }

  /** The waiter falls asleep, then its entry is removed. */
  lemma RemovedWhileAsleep() returns (run: seq<Action>)
    ensures IsRun(WAIT, FRESH, run) && Transfers(WAIT, ONE_PIECE, run)
    ensures AfterRun(WAIT, FRESH, run) == System(Inbox(WS_HARD_MAX_BYTES, map[], 1), Asleep(0), 2, {}, None)
  {
    OnePieceParts();
    var r0 := [];
    var r1 := r0 + [Turn(0)]; Extend(WAIT, FRESH, r0, Turn(0));
    assert AfterRun(WAIT, FRESH, r1).phase == Checked(0, 0);
    var r2 := r1 + [Compute(1)]; Extend(WAIT, FRESH, r1, Compute(1));
    run := r2 + [Other(2, Expired("job"))]; Extend(WAIT, FRESH, r2, Other(2, Expired("job")));
    assert AfterRun(WAIT, FRESH, run).inbox.entries == map[];
  }

  /** Such runs exist: the entry is removed under the sleeper and recreated with
      a new notifier by the chunk that completes it, whose signal goes nowhere. */
  lemma OrphanedSleeperReturns()
    ensures exists actions: seq<Action> ::
      && IsRun(WAIT, FRESH, actions) && Transfers(WAIT, ONE_PIECE, actions)
      && Orphaned(WAIT, AfterRun(WAIT, FRESH, actions)) && WAIT.id in AfterRun(WAIT, FRESH, actions).inbox.entries
      && IsRun(WAIT, FRESH, actions + [Elapse(10)] + [Turn(10)])
      && AfterRun(WAIT, FRESH, actions + [Elapse(10)] + [Turn(10)]).phase == Returned(ONE_PIECE)
  {
    OnePieceParts();
    var r3 := RemovedWhileAsleep();
    var removed := AfterRun(WAIT, FRESH, r3);
    PushHolds(removed.inbox, PIECE, ONE_PIECE, {});
    var run := r3 + [Other(3, Pushed(PIECE))]; Extend(WAIT, FRESH, r3, Other(3, Pushed(PIECE)));
    assert AfterRun(WAIT, FRESH, run).phase == Asleep(0) && AfterRun(WAIT, FRESH, run).arrived == {0};
    OrphanStillReturns(WAIT, ONE_PIECE, FRESH, run, 10);
  }

  lemma LateAfterPiece() returns (run: seq<Action>)
    ensures IsRun(WAIT, FRESH, run) && Transfers(WAIT, ONE_PIECE, run)
    ensures var end := AfterRun(WAIT, FRESH, run);
      end.phase == Checked(0, 0) && end.now == 5 && end.arrived == {0} && end.completeSince == Some(5)
  {
    OnePieceParts();
    var r0 := [];
    var r1 := r0 + [Turn(0)]; Extend(WAIT, FRESH, r0, Turn(0));
    assert AfterRun(WAIT, FRESH, r1).phase == Checked(0, 0);
    PushHolds(AfterRun(WAIT, FRESH, r1).inbox, PIECE, ONE_PIECE, {});
    run := r1 + [Other(5, Pushed(PIECE))]; Extend(WAIT, FRESH, r1, Other(5, Pushed(PIECE)));
  }

  /** The source does not hold the lock from the check to the deadline
      computation. Here the only piece arrives at 5, the deadline is 10, and a
      waiter that checked at 0 but computed at 12 drops the finished text. */
  lemma SlowComputeLosesText()
    ensures exists actions: seq<Action> ::
      && IsRun(WAIT, FRESH, actions) && Transfers(WAIT, ONE_PIECE, actions)
      && AfterRun(WAIT, FRESH, actions).phase == TimedOut(0, 12, Some(5)) && WAIT.deadline == 10
    ensures Starts(WAIT, ONE_PIECE, FRESH)
  {
    OnePieceParts();
    var r2 := LateAfterPiece();
    var r3 := r2 + [Compute(12)]; Extend(WAIT, FRESH, r2, Compute(12));
    var r4 := r3 + [GiveUp(12)]; Extend(WAIT, FRESH, r3, GiveUp(12));
    assert AfterRun(WAIT, FRESH, r4).phase == TimedOut(0, 12, Some(5));
  }
}
