/** The occupancy latch: a two-sided hysteresis over three maps, with an ignore
    window after our own VRAM activity. Times are milliseconds. */
module Occupancy {
  import opened Base

  const ENTER_HOLD: int := 12_000
  const EXIT_HOLD: int := 8_000
  const IGNORE_AFTER_OURS: int := 15_000

  datatype View = View(
    slotId: string, kind: string, strategy: Strategy, workerBusy: bool, loadedModels: nat,
    liveFreeGb: Option<real>, minNeedGb: Option<real>)

  predicate EqIgnoreCase(a: string, b: string)
  {
    |a| == |b| && forall i :: 0 <= i < |a| ==> AsciiLower(a[i]) == AsciiLower(b[i])
  }

  /** An idle GPU slot without our weights whose free VRAM, OS slack added, is
      below the smallest advertised need. */
  predicate RawForeignOccupancy(v: View)
  {
    && !EqIgnoreCase(v.kind, "cpu") && !v.strategy.CpuOnly? && !v.strategy.Metal?
    && !v.workerBusy && v.loadedModels == 0
    && v.minNeedGb.Some? && v.minNeedGb.value > 0.0 && v.liveFreeGb.Some?
    && v.liveFreeGb.value + 1.5 + 0.005 < v.minNeedGb.value
  }

  // ---- the watch ----

  datatype Op = Note(t: int) | Update(t: int, views: seq<View>)

  datatype Watch = Watch(
    latched: set<string>, candidateSince: map<string, int>, clearSince: map<string, int>, ignoreUntil: Option<int>)

  function Since(now: int, earlier: int): int { Max(now - earlier, 0) }

  predicate Ignoring(w: Watch, now: int) { w.ignoreUntil.Some? && now < w.ignoreUntil.value }

  function Look(w: Watch, now: int, v: View): Watch
  {
    var id := v.slotId;
    var raw := RawForeignOccupancy(v);
    if raw && !Ignoring(w, now) then
      var since := if id in w.candidateSince then w.candidateSince[id] else now;
      w.(clearSince := w.clearSince - {id}, candidateSince := w.candidateSince[id := since],
         latched := if Since(now, since) >= ENTER_HOLD then w.latched + {id} else w.latched)
    else
      var w1 := w.(candidateSince := w.candidateSince - {id});
      if raw then w1
      else if id !in w.latched then w1.(clearSince := w.clearSince - {id})
      else
        var since := if id in w.clearSince then w.clearSince[id] else now;
        if Since(now, since) >= EXIT_HOLD then w1.(latched := w.latched - {id}, clearSince := w.clearSince - {id})
        else w1.(clearSince := w.clearSince[id := since])
  }

  function LookAll(w: Watch, now: int, views: seq<View>): Watch
  {
    if views == [] then w else Look(LookAll(w, now, views[..|views| - 1]), now, views[|views| - 1])
  }

  function Seen(views: seq<View>): set<string> { set v | v in views :: v.slotId }

  function Retain(w: Watch, seen: set<string>): Watch
  {
    w.(latched := w.latched * seen,
       candidateSince := map id | id in w.candidateSince && id in seen :: w.candidateSince[id],
       clearSince := map id | id in w.clearSince && id in seen :: w.clearSince[id])
  }

  function Apply(w: Watch, op: Op): Watch
  {
    match op
    case Note(t) => w.(ignoreUntil := Some(t + IGNORE_AFTER_OURS), candidateSince := map[])
    case Update(t, views) => Retain(LookAll(w, t, views), Seen(views))
  }

  function Run(ops: seq<Op>): Watch
  {
    if ops == [] then Watch({}, map[], map[], None) else Apply(Run(ops[..|ops| - 1]), ops[|ops| - 1])
  }

  class OccupancyWatch {
    var latched: set<string>
    var candidateSince: map<string, int>
    var clearSince: map<string, int>
    var ignoreUntil: Option<int>

    function State(): Watch reads this { Watch(latched, candidateSince, clearSince, ignoreUntil) }

    constructor ()
      ensures State() == Run([])
    {
      latched, candidateSince, clearSince, ignoreUntil := {}, map[], map[], None;
    }

    method NoteOurVram(now: int)
      modifies this`ignoreUntil, this`candidateSince
      ensures State() == Apply(old(State()), Note(now))
    {
      ignoreUntil := Some(now + IGNORE_AFTER_OURS);
      candidateSince := map[];
    }

    method LookAt(now: int, ignoring: bool, view: View)
      requires ignoring == Ignoring(State(), now)
      modifies this`latched, this`candidateSince, this`clearSince
      ensures State() == Look(old(State()), now, view)
    {
      var id := view.slotId;
      var raw := RawForeignOccupancy(view);
      if raw && !ignoring {
        clearSince := clearSince - {id};
        if id !in candidateSince {
          candidateSince := candidateSince[id := now];
        }
        var since := candidateSince[id];
        assert candidateSince == candidateSince[id := since];
        if Since(now, since) >= ENTER_HOLD {
          latched := latched + {id};
        }
      } else {
        candidateSince := candidateSince - {id};
        if raw && ignoring {
          return;
        }
        if id !in latched {
          clearSince := clearSince - {id};
          return;
        }
        ghost var before := clearSince;
        if id !in clearSince {
          clearSince := clearSince[id := now];
        }
        var since := clearSince[id];
        assert clearSince == clearSince[id := since] && clearSince - {id} == before - {id};
        if Since(now, since) >= EXIT_HOLD {
          latched := latched - {id};
          clearSince := clearSince - {id};
        }
      }
    }

    method Update(now: int, views: seq<View>) returns (result: set<string>)
      modifies this`latched, this`candidateSince, this`clearSince
      ensures State() == Apply(old(State()), Op.Update(now, views))
      ensures result == latched
    {
      var ignoring := ignoreUntil.Some? && now < ignoreUntil.value;
      var seen := Seen(views);
      for i := 0 to |views|
        invariant State() == LookAll(old(State()), now, views[..i]) && ignoreUntil == old(ignoreUntil)
      {
        assert views[..i + 1][..i] == views[..i];
        LookAt(now, ignoring, views[i]);
      }
      assert views[..|views|] == views;
      latched := latched * seen;
      candidateSince := map id | id in candidateSince && id in seen :: candidateSince[id];
      clearSince := map id | id in clearSince && id in seen :: clearSince[id];
      result := latched;
    }
  }

  // ---- one slot at a time ----

  /** What one op means to a slot. Every view of the slot counts, in order. */
  datatype Ev = Noted(at: int) | Sample(at: int, view: View) | Absent(at: int)

  /** The device is a discrete accelerator: neither a CPU nor unified memory. */
  predicate IsDiscrete(v: View)
  {
    && !(|v.kind| == 3 && v.kind[0] in "cC" && v.kind[1] in "pP" && v.kind[2] in "uU")
    && (v.strategy == Single || v.strategy == TensorParallel || v.strategy == Vulkan)
  }

  /** Somebody else's memory: the slot is idle and holds none of our models, yet
      less is free than its smallest model needs beyond the OS slack. */
  predicate Foreign(v: View)
  {
    && IsDiscrete(v) && v.workerBusy == false && v.loadedModels == 0
    && match (v.liveFreeGb, v.minNeedGb)
       case (Some(free), Some(need)) => need > 0.0 && need - free > 1.505
       case _ => false
  }

  lemma ForeignIff(v: View)
    ensures RawForeignOccupancy(v) <==> Foreign(v)
  {
    assert EqIgnoreCase(v.kind, "cpu") <==> |v.kind| == 3 && v.kind[0] in "cC" && v.kind[1] in "pP" && v.kind[2] in "uU";
  }

  predicate Occupied(e: Ev) { e.Sample? && Foreign(e.view) }

  predicate Free(e: Ev) { e.Sample? && !Foreign(e.view) }

  datatype SlotState = SlotState(latched: bool, candidate: Option<int>, clear: Option<int>, ignoreUntil: Option<int>)

  function Slot(w: Watch, id: string): SlotState
  {
    SlotState(id in w.latched,
      if id in w.candidateSince then Some(w.candidateSince[id]) else None,
      if id in w.clearSince then Some(w.clearSince[id]) else None, w.ignoreUntil)
  }

  function Samples(t: int, views: seq<View>, id: string): seq<Ev>
  {
    if views == [] then []
    else
      var v := views[|views| - 1];
      Samples(t, views[..|views| - 1], id)
      + if v.slotId == id then [Sample(t, v)] else []
  }

  function EventsOf(op: Op, id: string): seq<Ev>
  {
    match op
    case Note(t) => [Noted(t)]
    case Update(t, views) =>
      var s := Samples(t, views, id);
      if s == [] then [Absent(t)] else s
  }

  function Events(ops: seq<Op>, id: string): seq<Ev>
  {
    if ops == [] then [] else Events(ops[..|ops| - 1], id) + EventsOf(ops[|ops| - 1], id)
  }

  function SlotStep(s: SlotState, e: Ev): SlotState
  {
    match e
    case Noted(t) => s.(candidate := None, ignoreUntil := Some(t + IGNORE_AFTER_OURS))
    case Absent(_) => SlotState(false, None, None, s.ignoreUntil)
    case Sample(t, v) =>
      if Foreign(v) then
        if s.ignoreUntil.Some? && t < s.ignoreUntil.value then s.(candidate := None)
        else
          var since := if s.candidate.Some? then s.candidate.value else t;
          s.(candidate := Some(since), clear := None, latched := s.latched || Since(t, since) >= ENTER_HOLD)
      else if !s.latched then s.(candidate := None, clear := None)
      else
        var since := if s.clear.Some? then s.clear.value else t;
        if Since(t, since) >= EXIT_HOLD then s.(candidate := None, latched := false, clear := None)
        else s.(candidate := None, clear := Some(since))
  }

  function SlotRun(s: SlotState, evs: seq<Ev>): SlotState
  {
    if evs == [] then s else SlotStep(SlotRun(s, evs[..|evs| - 1]), evs[|evs| - 1])
  }

  const EMPTY: SlotState := SlotState(false, None, None, None)

  lemma {:induction false} SlotRunAppend(s: SlotState, a: seq<Ev>, b: seq<Ev>)
    ensures SlotRun(s, a + b) == SlotRun(SlotRun(s, a), b)
  {
    if b == [] {
      assert a + b == a;
    } else {
      SlotRunAppend(s, a, b[..|b| - 1]);
      assert (a + b)[..|a + b| - 1] == a + b[..|b| - 1];
    }
  }

  lemma LookProjects(w: Watch, t: int, v: View, id: string)
    ensures Slot(Look(w, t, v), id) ==
      if v.slotId != id then Slot(w, id)
      else SlotStep(Slot(w, id), Sample(t, v))
    ensures Look(w, t, v).ignoreUntil == w.ignoreUntil
  {
    ForeignIff(v);
  }

  lemma {:induction false} LookAllProjects(w: Watch, t: int, views: seq<View>, id: string)
    ensures Slot(LookAll(w, t, views), id) == SlotRun(Slot(w, id), Samples(t, views, id))
    ensures LookAll(w, t, views).ignoreUntil == w.ignoreUntil
  {
    if views != [] {
      var front, v := views[..|views| - 1], views[|views| - 1];
      LookAllProjects(w, t, front, id);
      LookProjects(LookAll(w, t, front), t, v, id);
      SlotRunAppend(Slot(w, id), Samples(t, front, id),
        if v.slotId == id then [Sample(t, v)] else []);
    }
  }

  lemma {:induction false} SamplesSeen(t: int, views: seq<View>, id: string)
    ensures Samples(t, views, id) != [] <==> id in Seen(views)
  {
    if views != [] {
      var front, v := views[..|views| - 1], views[|views| - 1];
      SamplesSeen(t, front, id);
      assert views == front + [v];
      assert id in Seen(views) <==> id in Seen(front) || id == v.slotId;
    }
  }

  lemma ApplyProjects(w: Watch, op: Op, id: string)
    ensures Slot(Apply(w, op), id) == SlotRun(Slot(w, id), EventsOf(op, id))
  {
    match op {
      case Note(t) => assert [Noted(t)][..0] == [];
      case Update(t, views) =>
        LookAllProjects(w, t, views, id);
        SamplesSeen(t, views, id);
        RetainProjects(LookAll(w, t, views), Seen(views), id);
        assert [Absent(t)][..0] == [];
    }
  }

  lemma RetainProjects(w: Watch, seen: set<string>, id: string)
    ensures Slot(Retain(w, seen), id) == if id in seen then Slot(w, id) else SlotState(false, None, None, w.ignoreUntil)
  {
  }

  /** Slots do not interact: the watch, seen from one slot, runs on that slot's
      own events. */
  lemma {:induction false} WatchProjects(ops: seq<Op>, id: string)
    ensures Slot(Run(ops), id) == SlotRun(EMPTY, Events(ops, id))
  {
    if ops != [] {
      var front, op := ops[..|ops| - 1], ops[|ops| - 1];
      WatchProjects(front, id);
      SlotRunAppend(EMPTY, Events(front, id), EventsOf(op, id));
      ApplyProjects(Run(front), op, id);
    }
  }

  // ---- the history predicate ----

  ghost predicate NonDecreasing(evs: seq<Ev>)
  {
    forall i, j :: 0 <= i < j < |evs| ==> evs[i].at <= evs[j].at
  }

  /** Sample k falls in an ignore window. */
  ghost predicate Ignored(evs: seq<Ev>, k: nat)
    requires k < |evs|
  {
    exists n :: 0 <= n < k && evs[n].Noted? && evs[k].at < evs[n].at + 15_000
  }

  /** An occupied sample outside every ignore window. */
  ghost predicate Counts(evs: seq<Ev>, k: nat)
    requires k < |evs|
  {
    Occupied(evs[k]) && !Ignored(evs, k)
  }

  /** Every event from i to k is an occupied sample that counts. */
  ghost predicate Unbroken(evs: seq<Ev>, i: nat, k: nat)
  {
    i <= k < |evs| && forall m :: i <= m <= k ==> Counts(evs, m)
  }

  ghost predicate EntersAt(evs: seq<Ev>, k: nat)
  {
    exists i: nat :: Unbroken(evs, i, k) && evs[k].at - evs[i].at >= 12_000
  }

  /** Free samples at i and k, at least 8 s apart, with no occupied sample
      that counts between them. */
  ghost predicate Brackets(evs: seq<Ev>, i: nat, k: nat)
  {
    && i < k < |evs| && Free(evs[i]) && Free(evs[k]) && evs[k].at - evs[i].at >= 8_000
    && forall m :: i < m < k ==> !Counts(evs, m)
  }

  /** After event p the slot was sampled in every update and never left. */
  ghost predicate StaysFrom(evs: seq<Ev>, p: nat)
  {
    && (forall m :: p < m < |evs| ==> !evs[m].Absent?)
    && (forall i: nat, k: nat :: p < i && i < k ==> !Brackets(evs, i, k))
  }

  ghost predicate LatchedByHistory(evs: seq<Ev>)
  {
    exists p: nat :: p < |evs| && EntersAt(evs, p) && StaysFrom(evs, p)
  }

  // ---- the fold against the history ----

  /** The ignore deadline is the last note's. */
  ghost predicate IgnoreFollows(evs: seq<Ev>, until: Option<int>)
  {
    && (until.Some? ==> exists n :: 0 <= n < |evs| && evs[n].Noted? && until.value == evs[n].at + 15_000)
    && (forall n :: 0 <= n < |evs| && evs[n].Noted? ==> until.Some? && evs[n].at + 15_000 <= until.value)
  }

  /** The candidate time is where the current series of counting samples began. */
  ghost predicate CandidateFollows(evs: seq<Ev>, candidate: Option<int>)
  {
    && (candidate.None? ==> evs == [] || !Counts(evs, |evs| - 1))
    && (candidate.Some? ==> evs != [] && exists i: nat ::
        Unbroken(evs, i, |evs| - 1) && evs[i].at == candidate.value && (i > 0 ==> !Counts(evs, i - 1)))
  }

  /** Between m and k lies an occupied sample that counts. */
  ghost predicate CountBetween(evs: seq<Ev>, m: int, k: int)
    requires 0 <= m && k <= |evs|
  {
    exists q :: m < q < k && Counts(evs, q)
  }

  /** While latched since p, the clear time is the first free sample of the
      current stretch without counting samples. */
  ghost predicate ClearFollows(evs: seq<Ev>, p: nat, clear: Option<int>)
    requires p < |evs|
  {
    && (clear.None? ==> forall m :: p < m < |evs| && Free(evs[m]) ==> CountBetween(evs, m, |evs|))
    && (clear.Some? ==> exists i ::
        && p < i < |evs| && Free(evs[i]) && evs[i].at == clear.value && !CountBetween(evs, i, |evs|)
        && forall m :: p < m < i && Free(evs[m]) ==> CountBetween(evs, m, i))
  }

  ghost predicate LatchFollows(evs: seq<Ev>, s: SlotState)
  {
    if s.latched then exists p: nat :: p < |evs| && EntersAt(evs, p) && StaysFrom(evs, p) && ClearFollows(evs, p, s.clear)
    else s.clear == None && !LatchedByHistory(evs)
  }

  ghost predicate Follows(evs: seq<Ev>, s: SlotState)
  {
    && IgnoreFollows(evs, s.ignoreUntil) && CandidateFollows(evs, s.candidate) && LatchFollows(evs, s)
    && (s.clear.Some? ==> s.latched && s.candidate == None)
  }

  lemma PrefixSame(evs: seq<Ev>, e: Ev)
    ensures forall k :: 0 <= k < |evs| ==> Counts(evs + [e], k) == Counts(evs, k)
    ensures forall i: nat, k: nat :: k < |evs| ==> Unbroken(evs + [e], i, k) == Unbroken(evs, i, k)
  {
    var all := evs + [e];
    forall k | 0 <= k < |evs| ensures Counts(all, k) == Counts(evs, k) {
      assert forall n :: 0 <= n <= k ==> all[n] == evs[n];
    }
  }

  lemma PrefixEnters(evs: seq<Ev>, e: Ev, p: nat)
    requires p < |evs|
    ensures EntersAt(evs + [e], p) == EntersAt(evs, p)
  {
    PrefixSame(evs, e);
    var all := evs + [e];
    assert forall i: nat :: Unbroken(evs, i, p) ==> all[i] == evs[i];
  }

  lemma BracketsSame(evs: seq<Ev>, e: Ev, i: nat, k: nat)
    requires k < |evs|
    ensures Brackets(evs + [e], i, k) == Brackets(evs, i, k)
  {
    PrefixSame(evs, e);
  }

  /** A slot that stayed keeps staying unless it is absent or a bracket closes. */
  lemma StaysExtends(evs: seq<Ev>, e: Ev, p: nat)
    requires p < |evs|
    ensures StaysFrom(evs + [e], p) <==>
      StaysFrom(evs, p) && !e.Absent? && forall i: nat :: p < i ==> !Brackets(evs + [e], i, |evs|)
  {
    var all := evs + [e];
    assert forall m :: 0 <= m < |evs| ==> all[m] == evs[m];
    assert all[|evs|] == e;
    forall i: nat, k: nat | p < i < k && k != |evs|
      ensures Brackets(all, i, k) == Brackets(evs, i, k)
    {
      if k < |evs| { BracketsSame(evs, e, i, k); }
    }
    if StaysFrom(all, p) {
      forall i: nat | p < i ensures !Brackets(all, i, |evs|) {
        if i < |evs| { assert !Brackets(all, i, |evs|); }
      }
      forall m | p < m < |evs| ensures !evs[m].Absent? { assert !all[m].Absent?; }
    }
  }

  lemma NewSampleIgnored(evs: seq<Ev>, e: Ev, until: Option<int>)
    requires IgnoreFollows(evs, until)
    ensures Ignored(evs + [e], |evs|) <==> until.Some? && e.at < until.value
  {
    var all := evs + [e];
    if until.Some? && e.at < until.value {
      var n :| 0 <= n < |evs| && evs[n].Noted? && until.value == evs[n].at + 15_000;
      assert all[n].Noted?;
    }
    if Ignored(all, |evs|) {
      var n :| 0 <= n < |evs| && all[n].Noted? && all[|evs|].at < all[n].at + 15_000;
      assert evs[n].Noted?;
    }
  }

  lemma IgnoreStep(evs: seq<Ev>, e: Ev, s: SlotState)
    requires IgnoreFollows(evs, s.ignoreUntil) && NonDecreasing(evs + [e])
    ensures IgnoreFollows(evs + [e], SlotStep(s, e).ignoreUntil)
  {
    var all := evs + [e];
    assert forall n :: 0 <= n < |evs| ==> all[n] == evs[n] && all[n].at <= all[|evs|].at;
    if e.Noted? {
      assert all[|evs|].Noted?;
    } else if s.ignoreUntil.Some? {
      var n :| 0 <= n < |evs| && evs[n].Noted? && s.ignoreUntil.value == evs[n].at + 15_000;
      assert all[n].Noted?;
    }
  }

  lemma CandidateStep(evs: seq<Ev>, e: Ev, s: SlotState)
    requires IgnoreFollows(evs, s.ignoreUntil) && CandidateFollows(evs, s.candidate)
    ensures CandidateFollows(evs + [e], SlotStep(s, e).candidate)
  {
    PrefixSame(evs, e);
    NewSampleIgnored(evs, e, s.ignoreUntil);
    var all, k := evs + [e], |evs|;
    if Counts(all, k) {
      if s.candidate.Some? {
        var i: nat :| Unbroken(evs, i, k - 1) && evs[i].at == s.candidate.value && (i > 0 ==> !Counts(evs, i - 1));
        assert Unbroken(all, i, k - 1) && Unbroken(all, i, k);
        assert all[i] == evs[i] && (i > 0 ==> !Counts(all, i - 1));
      } else {
        assert Unbroken(all, k, k);
      }
    }
  }

  /** With non-decreasing times, the current series spans 12 s iff it does
      from its first sample. */
  lemma EntersFromFirst(evs: seq<Ev>, candidate: int)
    requires evs != [] && NonDecreasing(evs) && CandidateFollows(evs, Some(candidate))
    ensures EntersAt(evs, |evs| - 1) <==> evs[|evs| - 1].at - candidate >= 12_000
    ensures candidate <= evs[|evs| - 1].at
  {
    var k := |evs| - 1;
    var f: nat :| Unbroken(evs, f, k) && evs[f].at == candidate && (f > 0 ==> !Counts(evs, f - 1));
    if EntersAt(evs, k) {
      var i: nat :| Unbroken(evs, i, k) && evs[k].at - evs[i].at >= 12_000;
      assert f <= i;
    }
  }

  lemma OnlyCountingEnters(evs: seq<Ev>, p: nat)
    requires p < |evs| && EntersAt(evs, p)
    ensures Counts(evs, p)
  {
    var i: nat :| Unbroken(evs, i, p) && evs[p].at - evs[i].at >= 12_000;
  }

  lemma BetweenExtends(evs: seq<Ev>, e: Ev, m: nat, k: nat)
    requires k <= |evs|
    ensures CountBetween(evs + [e], m, k) == CountBetween(evs, m, k)
    ensures CountBetween(evs + [e], m, |evs| + 1) <==> CountBetween(evs, m, |evs|) || (m < |evs| && Counts(evs + [e], |evs|))
  {
    PrefixSame(evs, e);
    var all := evs + [e];
    if CountBetween(evs, m, |evs|) {
      var q :| m < q < |evs| && Counts(evs, q);
      assert Counts(all, q);
    }
    if m < |evs| && Counts(all, |evs|) { assert m < |evs| < |evs| + 1; }
    if CountBetween(evs, m, k) { var q :| m < q < k && Counts(evs, q); assert Counts(all, q); }
    if CountBetween(all, m, k) { var q :| m < q < k && Counts(all, q); assert Counts(evs, q); }
  }

  lemma UnlatchedStep(evs: seq<Ev>, e: Ev, s: SlotState)
    requires Follows(evs, s) && NonDecreasing(evs + [e]) && !s.latched
    ensures LatchFollows(evs + [e], SlotStep(s, e))
    ensures SlotStep(s, e).latched <==> EntersAt(evs + [e], |evs|)
  {
    var all, k, s' := evs + [e], |evs|, SlotStep(s, e);
    NewSampleIgnored(evs, e, s.ignoreUntil);
    CandidateStep(evs, e, s);
    if Counts(all, k) {
      EntersFromFirst(all, s'.candidate.value);
    } else if EntersAt(all, k) {
      OnlyCountingEnters(all, k);
    }
    if s'.latched {
      assert StaysFrom(all, k) && ClearFollows(all, k, None);
    } else if LatchedByHistory(all) {
      var p: nat :| p < |all| && EntersAt(all, p) && StaysFrom(all, p);
      assert p < k;
      PrefixEnters(evs, e, p);
      StaysExtends(evs, e, p);
      assert LatchedByHistory(evs);
    }
  }

  /** A latched slot sees anything but a free sample. */
  lemma LatchedNotFreeStep(evs: seq<Ev>, e: Ev, s: SlotState)
    requires Follows(evs, s) && NonDecreasing(evs + [e]) && s.latched && !Free(e)
    ensures LatchFollows(evs + [e], SlotStep(s, e))
    ensures SlotStep(s, e).latched <==> !e.Absent?
  {
    var all, k, s' := evs + [e], |evs|, SlotStep(s, e);
    PrefixSame(evs, e);
    NewSampleIgnored(evs, e, s.ignoreUntil);
    if e.Absent? {
      forall p: nat | p < |all| && EntersAt(all, p) ensures !StaysFrom(all, p) {
        OnlyCountingEnters(all, p);
        assert p < k && all[k].Absent?;
      }
    } else {
      var p: nat :| p < |evs| && EntersAt(evs, p) && StaysFrom(evs, p) && ClearFollows(evs, p, s.clear);
      PrefixEnters(evs, e, p);
      StaysExtends(evs, e, p);
      assert ClearFollows(all, p, s'.clear) by { ClearExtends(evs, e, p, s.clear, s'.clear); }
    }
  }

  lemma ClearExtends(evs: seq<Ev>, e: Ev, p: nat, clear: Option<int>, clear': Option<int>)
    requires p < |evs| && ClearFollows(evs, p, clear) && !Free(e)
    requires clear' == if Counts(evs + [e], |evs|) then None else clear
    ensures ClearFollows(evs + [e], p, clear')
  {
    var all, k := evs + [e], |evs|;
    forall m | 0 <= m < k
      ensures CountBetween(all, m, k + 1) <==> CountBetween(evs, m, k) || Counts(all, k)
    {
      BetweenExtends(evs, e, m, k);
    }
    if clear'.Some? {
      var i :| p < i < k && Free(evs[i]) && evs[i].at == clear.value && !CountBetween(evs, i, k)
        && forall m :: p < m < i && Free(evs[m]) ==> CountBetween(evs, m, i);
      forall m | p < m < i && Free(all[m]) ensures CountBetween(all, m, i) { BetweenExtends(evs, e, m, i); assert Free(evs[m]); }
      assert Free(all[i]) && !CountBetween(all, i, k + 1);
    } else {
      forall m | p < m < |all| && Free(all[m]) ensures CountBetween(all, m, |all|) { assert m < k && Free(evs[m]); }
    }
  }

  /** A latched slot sees a free sample: it leaves iff a bracket closes. */
  lemma LatchedFreeStep(evs: seq<Ev>, e: Ev, s: SlotState)
    requires Follows(evs, s) && NonDecreasing(evs + [e]) && s.latched && Free(e)
    ensures LatchFollows(evs + [e], SlotStep(s, e))
    ensures !SlotStep(s, e).latched <==> exists i: nat :: Brackets(evs + [e], i, |evs|)
  {
    var all, k, s' := evs + [e], |evs|, SlotStep(s, e);
    var p: nat :| p < |evs| && EntersAt(evs, p) && StaysFrom(evs, p) && ClearFollows(evs, p, s.clear);
    PrefixEnters(evs, e, p);
    OnlyCountingEnters(all, p);
    var i := FirstFree(evs, e, p, s.clear);
    assert all[k] == e && all[i].at <= all[k].at;
    assert s'.latched <==> all[k].at - all[i].at < 8_000;
    if s'.latched {
      FreeStays(evs, e, p, i);
      assert ClearFollows(all, p, s'.clear);
    } else {
      FreeLeaves(evs, e, i);
    }
  }

  lemma FreeStays(evs: seq<Ev>, e: Ev, p: nat, i: nat)
    requires NonDecreasing(evs + [e]) && p < |evs| && StaysFrom(evs, p) && Free(e) && i <= |evs|
    requires e.at - (evs + [e])[i].at < 8_000
    requires forall j: nat :: Brackets(evs + [e], j, |evs|) ==> i <= j
    ensures StaysFrom(evs + [e], p) && forall j: nat :: !Brackets(evs + [e], j, |evs|)
  {
    var all, k := evs + [e], |evs|;
    forall j: nat ensures !Brackets(all, j, k) {
      if i <= j < k { assert all[i].at <= all[j].at; }
    }
    StaysExtends(evs, e, p);
  }

  lemma FreeLeaves(evs: seq<Ev>, e: Ev, i: nat)
    requires i < |evs| && Free(e) && Free(evs[i]) && e.at - evs[i].at >= 8_000
    requires forall m :: i < m < |evs| ==> !Counts(evs + [e], m)
    ensures Brackets(evs + [e], i, |evs|) && !LatchedByHistory(evs + [e])
  {
    var all, k := evs + [e], |evs|;
    assert all[i] == evs[i] && all[k] == e;
    assert Brackets(all, i, k);
    forall q: nat | q < |all| && EntersAt(all, q) ensures !StaysFrom(all, q) {
      OnlyCountingEnters(all, q);
      assert q < i;
    }
  }

  /** Where the current free stretch begins, the new free sample included. */
  lemma FirstFree(evs: seq<Ev>, e: Ev, p: nat, clear: Option<int>) returns (i: nat)
    requires p < |evs| && ClearFollows(evs, p, clear) && Free(e) && Counts(evs + [e], p)
    ensures var all := evs + [e];
      && p < i <= |evs| && Free(all[i]) && all[i].at == (if clear.Some? then clear.value else e.at)
      && (forall m :: i < m < |evs| ==> !Counts(all, m))
      && (forall m :: p < m < i && Free(all[m]) ==> CountBetween(all, m, i))
      && (forall j: nat :: Brackets(all, j, |evs|) ==> i <= j)
      && !CountBetween(all, i, |all|)
  {
    var all, k := evs + [e], |evs|;
    PrefixSame(evs, e);
    if clear.Some? {
      i :| p < i < k && Free(evs[i]) && evs[i].at == clear.value && !CountBetween(evs, i, k)
        && forall m :: p < m < i && Free(evs[m]) ==> CountBetween(evs, m, i);
    } else {
      i := k;
    }
    forall m | p < m < i && Free(all[m]) ensures CountBetween(all, m, i) { BetweenExtends(evs, e, m, i); assert Free(evs[m]); }
    BetweenExtends(evs, e, i, k);
    forall m | i < m < k ensures !Counts(all, m) { assert Counts(all, m) == Counts(evs, m); }
    forall j: nat | Brackets(all, j, k) ensures i <= j {
    }
  }

  lemma FollowStep(evs: seq<Ev>, e: Ev, s: SlotState)
    requires Follows(evs, s) && NonDecreasing(evs + [e])
    ensures Follows(evs + [e], SlotStep(s, e))
  {
    IgnoreStep(evs, e, s);
    CandidateStep(evs, e, s);
    if !s.latched { UnlatchedStep(evs, e, s); }
    else if Free(e) { LatchedFreeStep(evs, e, s); }
    else { LatchedNotFreeStep(evs, e, s); }
  }

  lemma {:induction false} FoldFollows(evs: seq<Ev>)
    requires NonDecreasing(evs)
    ensures Follows(evs, SlotRun(EMPTY, evs))
  {
    if evs != [] {
      var front := evs[..|evs| - 1];
      assert evs == front + [evs[|evs| - 1]];
      FoldFollows(front);
      FollowStep(front, evs[|evs| - 1], SlotRun(EMPTY, front));
    }
  }

  // ---- the theorems ----

  ghost predicate TimesNonDecreasing(ops: seq<Op>)
  {
    forall i, j :: 0 <= i < j < |ops| ==> ops[i].t <= ops[j].t
  }

  lemma {:induction false} EventTimes(ops: seq<Op>, id: string)
    requires TimesNonDecreasing(ops)
    ensures NonDecreasing(Events(ops, id))
    ensures ops != [] ==> forall k :: 0 <= k < |Events(ops, id)| ==> Events(ops, id)[k].at <= ops[|ops| - 1].t
  {
    if ops != [] {
      var front, op := ops[..|ops| - 1], ops[|ops| - 1];
      EventTimes(front, id);
      OneOpTimes(op, id);
      if front != [] { assert front[|front| - 1].t <= op.t; }
    }
  }

  lemma OneOpTimes(op: Op, id: string)
    ensures forall k :: 0 <= k < |EventsOf(op, id)| ==> EventsOf(op, id)[k].at == op.t
  {
    if op.Update? { SampleTimes(op.t, op.views, id); }
  }

  lemma {:induction false} SampleTimes(t: int, views: seq<View>, id: string)
    ensures forall k :: 0 <= k < |Samples(t, views, id)| ==> Samples(t, views, id)[k].at == t
  {
    if views != [] { SampleTimes(t, views[..|views| - 1], id); }
  }

  /** After every run of `note_our_vram` and `update` with non-decreasing times,
      the latch holds exactly the slots the history says. */
  lemma LatchRefinesHistory(ops: seq<Op>, id: string)
    requires TimesNonDecreasing(ops)
    ensures id in Run(ops).latched <==> LatchedByHistory(Events(ops, id))
  {
    EventTimes(ops, id);
    WatchProjects(ops, id);
    FoldFollows(Events(ops, id));
  }

  // ---- the same in terms of ops and views ----

  /** A view of the slot in one of the updates. */
  predicate ViewIn(ops: seq<Op>, m: nat, v: View, id: string)
  {
    m < |ops| && ops[m].Update? && v in ops[m].views && v.slotId == id
  }

  lemma {:induction false} SampleIsView(t: int, views: seq<View>, id: string, k: nat)
    requires k < |Samples(t, views, id)|
    ensures var e := Samples(t, views, id)[k]; e.Sample? && e.at == t && e.view in views && e.view.slotId == id
  {
    if views != [] {
      var front := views[..|views| - 1];
      if k < |Samples(t, front, id)| { SampleIsView(t, front, id, k); }
    }
  }

  lemma {:induction false} ViewIsSample(t: int, views: seq<View>, id: string, v: View) returns (k: nat)
    requires v in views && v.slotId == id
    ensures k < |Samples(t, views, id)| && Samples(t, views, id)[k] == Sample(t, v)
  {
    var front := views[..|views| - 1];
    assert views == front + [views[|views| - 1]];
    if v in front { k := ViewIsSample(t, front, id, v); } else { k := |Samples(t, front, id)|; }
  }

  /** Where the events of op m begin. */
  ghost function Begin(ops: seq<Op>, id: string, m: nat): nat
    requires m <= |ops|
  {
    if m == 0 then 0 else Begin(ops, id, m - 1) + |EventsOf(ops[m - 1], id)|
  }

  lemma {:induction false} BeginOfFront(ops: seq<Op>, more: seq<Op>, id: string, m: nat)
    requires m <= |ops|
    ensures Begin(ops + more, id, m) == Begin(ops, id, m)
  {
    if m > 0 { BeginOfFront(ops, more, id, m - 1); }
  }

  lemma OneOpEvents(op: Op, id: string)
    ensures EventsOf(op, id) != [] && (EventsOf(op, id)[0].Sample? ==> op.Update? && Samples(op.t, op.views, id) == EventsOf(op, id))
  {
  }

  lemma {:induction false} BeginGrows(ops: seq<Op>, id: string, m: nat, n: nat)
    requires m < n <= |ops|
    ensures Begin(ops, id, m) < Begin(ops, id, m) + |EventsOf(ops[m], id)| <= Begin(ops, id, n)
    decreases n
  {
    OneOpEvents(ops[m], id);
    OneOpEvents(ops[n - 1], id);
    if m < n - 1 { BeginGrows(ops, id, m, n - 1); }
  }

  lemma {:induction false} EventsLength(ops: seq<Op>, id: string)
    ensures |Events(ops, id)| == Begin(ops, id, |ops|)
  {
    if ops != [] {
      var front := ops[..|ops| - 1];
      EventsLength(front, id);
      assert ops == front + [ops[|ops| - 1]];
      BeginOfFront(front, [ops[|ops| - 1]], id, |front|);
    }
  }

  /** Event k of op m is this event of the run. */
  lemma {:induction false} EventAt(ops: seq<Op>, id: string, m: nat, k: nat)
    requires m < |ops| && k < |EventsOf(ops[m], id)|
    ensures Begin(ops, id, m) + k < |Events(ops, id)| && Events(ops, id)[Begin(ops, id, m) + k] == EventsOf(ops[m], id)[k]
  {
    var front, last := ops[..|ops| - 1], ops[|ops| - 1];
    assert ops == front + [last];
    BeginOfFront(front, [last], id, m);
    if m < |front| {
      EventAt(front, id, m, k);
      assert front[m] == ops[m];
    } else {
      EventsLength(front, id);
    }
  }

  /** Every event belongs to an op. */
  lemma {:induction false} OpOf(ops: seq<Op>, id: string, k: nat) returns (m: nat, r: nat)
    requires k < |Events(ops, id)|
    ensures m < |ops| && r < |EventsOf(ops[m], id)| && k == Begin(ops, id, m) + r && Events(ops, id)[k] == EventsOf(ops[m], id)[r]
  {
    var front, last := ops[..|ops| - 1], ops[|ops| - 1];
    assert ops == front + [last];
    if k < |Events(front, id)| {
      m, r := OpOf(front, id, k);
      BeginOfFront(front, [last], id, m);
      assert front[m] == ops[m];
    } else {
      EventsLength(front, id);
      BeginOfFront(front, [last], id, |front|);
      m, r := |front|, k - |Events(front, id)|;
    }
  }

  /** What an event says about its op. */
  lemma EventSays(op: Op, id: string, r: nat)
    requires r < |EventsOf(op, id)|
    ensures var e := EventsOf(op, id)[r];
      && e.at == op.t && (e.Noted? <==> op.Note?)
      && (e.Sample? ==> op.Update? && e.view in op.views && e.view.slotId == id)
  {
    OneOpTimes(op, id);
    if op.Update? && Samples(op.t, op.views, id) != [] { SampleIsView(op.t, op.views, id, r); }
  }

  ghost predicate AllOccupied(evs: seq<Ev>) { forall r :: 0 <= r < |evs| ==> Occupied(evs[r]) }

  /** An update that sees the slot, and nothing but foreign use of it. */
  ghost predicate SeesForeign(op: Op, id: string)
  {
    && op.Update? && (exists v :: v in op.views && v.slotId == id)
    && forall v :: v in op.views && v.slotId == id ==> Foreign(v)
  }

  lemma SeesForeignIff(op: Op, id: string)
    ensures SeesForeign(op, id) <==> AllOccupied(EventsOf(op, id))
  {
    OneOpEvents(op, id);
    if SeesForeign(op, id) {
      var v :| v in op.views && v.slotId == id;
      var _ := ViewIsSample(op.t, op.views, id, v);
      forall r: nat | r < |EventsOf(op, id)| ensures Occupied(EventsOf(op, id)[r]) { SampleIsView(op.t, op.views, id, r); }
    } else if EventsOf(op, id)[0].Sample? {
      SampleIsView(op.t, op.views, id, 0);
      var v :| v in op.views && v.slotId == id && !Foreign(v);
      var r := ViewIsSample(op.t, op.views, id, v);
    }
  }

  /** A latched slot was seen, in updates 12 s apart and not within 15 s of our
      own VRAM activity, idle, without our models and short of room on a discrete
      card; between the two nothing but that was seen of it, and ever since every
      update has seen it. */
  lemma LatchedWasForeign(ops: seq<Op>, id: string) returns (a: nat, first: View, b: nat, last: View)
    requires TimesNonDecreasing(ops) && id in Run(ops).latched
    ensures a <= b && ViewIn(ops, a, first, id) && ViewIn(ops, b, last, id) && ops[b].t - ops[a].t >= 12_000
    ensures Foreign(first) && Foreign(last)
    ensures forall m :: a < m < b ==> SeesForeign(ops[m], id)
    ensures forall n :: 0 <= n < a && ops[n].Note? ==> ops[a].t - ops[n].t >= 15_000
    ensures forall m :: b < m < |ops| && ops[m].Update? ==> exists v :: ViewIn(ops, m, v, id)
  {
    var evs := Events(ops, id);
    LatchRefinesHistory(ops, id);
    var p: nat :| p < |evs| && EntersAt(evs, p) && StaysFrom(evs, p);
    var i: nat :| Unbroken(evs, i, p) && evs[p].at - evs[i].at >= 12_000;
    assert Counts(evs, i) && Counts(evs, p);
    var r, q;
    a, r := OpOf(ops, id, i);
    b, q := OpOf(ops, id, p);
    first, last := evs[i].view, evs[p].view;
    EventSays(ops[a], id, r);
    EventSays(ops[b], id, q);
    if b < a { BeginGrows(ops, id, b, a); }
    forall m | a < m < b ensures SeesForeign(ops[m], id) {
      BeginGrows(ops, id, a, m);
      BeginGrows(ops, id, m, b);
      BlockCounts(ops, id, i, p, m);
      SeesForeignIff(ops[m], id);
    }
    forall n | 0 <= n < a && ops[n].Note? ensures ops[a].t - ops[n].t >= 15_000 {
      NotesLongBefore(ops, id, i, a, n);
    }
    forall m | b < m < |ops| && ops[m].Update? ensures exists v :: ViewIn(ops, m, v, id) {
      BeginGrows(ops, id, b, m);
      StillSeen(ops, id, p, m);
    }
  }

  lemma NotesLongBefore(ops: seq<Op>, id: string, i: nat, a: nat, n: nat)
    requires n < a < |ops| && ops[n].Note? && Begin(ops, id, a) <= i < |Events(ops, id)|
    requires Events(ops, id)[i].at == ops[a].t && Counts(Events(ops, id), i)
    ensures ops[a].t - ops[n].t >= 15_000
  {
    BeginGrows(ops, id, n, a);
    EventAt(ops, id, n, 0);
  }

  lemma BlockCounts(ops: seq<Op>, id: string, i: nat, p: nat, m: nat)
    requires m < |ops| && i <= Begin(ops, id, m) && Begin(ops, id, m) + |EventsOf(ops[m], id)| <= p
    requires Unbroken(Events(ops, id), i, p)
    ensures AllOccupied(EventsOf(ops[m], id))
  {
    forall r | 0 <= r < |EventsOf(ops[m], id)| ensures Occupied(EventsOf(ops[m], id)[r]) {
      BlockCountsAt(ops, id, i, p, m, r);
    }
  }

  lemma BlockCountsAt(ops: seq<Op>, id: string, i: nat, p: nat, m: nat, r: nat)
    requires m < |ops| && r < |EventsOf(ops[m], id)| && i <= Begin(ops, id, m) + r <= p
    requires Unbroken(Events(ops, id), i, p)
    ensures Occupied(EventsOf(ops[m], id)[r])
  {
    EventAt(ops, id, m, r);
    UnbrokenAt(Events(ops, id), i, p, Begin(ops, id, m) + r);
  }

  lemma UnbrokenAt(evs: seq<Ev>, i: nat, p: nat, k: nat)
    requires Unbroken(evs, i, p) && i <= k <= p
    ensures Occupied(evs[k])
  {
    assert Counts(evs, k);
  }

  lemma StillSeen(ops: seq<Op>, id: string, p: nat, m: nat)
    requires m < |ops| && ops[m].Update? && p < Begin(ops, id, m) && StaysFrom(Events(ops, id), p)
    ensures exists v :: ViewIn(ops, m, v, id)
  {
    OneOpEvents(ops[m], id);
    EventAt(ops, id, m, 0);
    EventSays(ops[m], id, 0);
    assert !Events(ops, id)[Begin(ops, id, m) + 0].Absent?;
    assert ViewIn(ops, m, EventsOf(ops[m], id)[0].view, id);
  }

  /** Conversely such a series latches at its 12 s: seen as foreign use in every
      op from a on, the first at least 15 s after our own VRAM activity. */
  lemma ForeignSeriesLatches(ops: seq<Op>, id: string, a: nat)
    requires TimesNonDecreasing(ops) && a < |ops| && ops[|ops| - 1].t - ops[a].t >= 12_000
    requires forall m :: a <= m < |ops| ==> SeesForeign(ops[m], id)
    requires forall n :: 0 <= n < a && ops[n].Note? ==> ops[a].t - ops[n].t >= 15_000
    ensures id in Run(ops).latched
  {
    var evs, i := Events(ops, id), Begin(ops, id, a);
    forall m | a <= m < |ops| ensures AllOccupied(EventsOf(ops[m], id)) { SeesForeignIff(ops[m], id); }
    SeriesSpans(ops, id, a);
    forall m | i <= m < |evs| ensures Counts(evs, m) { SeriesCounts(ops, id, a, m); }
    LastEnters(evs, i);
    LatchRefinesHistory(ops, id);
  }

  lemma LastEnters(evs: seq<Ev>, i: nat)
    requires i < |evs| && (forall m :: i <= m < |evs| ==> Counts(evs, m)) && evs[|evs| - 1].at - evs[i].at >= 12_000
    ensures LatchedByHistory(evs)
  {
    var k := |evs| - 1;
    assert Unbroken(evs, i, k);
    assert EntersAt(evs, k) && StaysFrom(evs, k);
  }

  lemma SeriesSpans(ops: seq<Op>, id: string, a: nat)
    requires a < |ops|
    ensures Begin(ops, id, a) < |Events(ops, id)|
    ensures Events(ops, id)[Begin(ops, id, a)].at == ops[a].t
    ensures Events(ops, id)[|Events(ops, id)| - 1].at == ops[|ops| - 1].t
  {
    FirstTime(ops, id, a);
    LastTime(ops, id);
  }

  lemma FirstTime(ops: seq<Op>, id: string, m: nat)
    requires m < |ops|
    ensures Begin(ops, id, m) < |Events(ops, id)| && Events(ops, id)[Begin(ops, id, m)].at == ops[m].t
  {
    OneOpEvents(ops[m], id);
    EventAt(ops, id, m, 0);
    OneOpTimes(ops[m], id);
  }

  lemma LastTime(ops: seq<Op>, id: string)
    requires ops != []
    ensures Events(ops, id) != [] && Events(ops, id)[|Events(ops, id)| - 1].at == ops[|ops| - 1].t
  {
    var op := ops[|ops| - 1];
    OneOpEvents(op, id);
    OneOpTimes(op, id);
    assert Events(ops, id)[|Events(ops, id)| - 1] == EventsOf(op, id)[|EventsOf(op, id)| - 1];
  }

  lemma SeriesCounts(ops: seq<Op>, id: string, a: nat, k: nat)
    requires TimesNonDecreasing(ops) && a < |ops| && Begin(ops, id, a) <= k < |Events(ops, id)|
    requires forall m :: a <= m < |ops| ==> AllOccupied(EventsOf(ops[m], id))
    requires forall n :: 0 <= n < a && ops[n].Note? ==> ops[a].t - ops[n].t >= 15_000
    ensures Counts(Events(ops, id), k)
  {
    var evs := Events(ops, id);
    var m, r := OpOf(ops, id, k);
    if m < a { BeginGrows(ops, id, m, a); }
    EventSays(ops[m], id, r);
    forall n | 0 <= n < k && evs[n].Noted? ensures evs[n].at + 15_000 <= evs[k].at {
      EarlierNote(ops, id, a, m, n);
    }
  }

  lemma EarlierNote(ops: seq<Op>, id: string, a: nat, m: nat, n: nat)
    requires TimesNonDecreasing(ops) && a <= m < |ops| && n < |Events(ops, id)| && Events(ops, id)[n].Noted?
    requires forall m :: a <= m < |ops| ==> AllOccupied(EventsOf(ops[m], id))
    requires forall n :: 0 <= n < a && ops[n].Note? ==> ops[a].t - ops[n].t >= 15_000
    ensures Events(ops, id)[n].at + 15_000 <= ops[m].t
  {
    var o := NoteOf(ops, id, n);
    if o >= a { NoteNotOccupied(ops[o], id); }
    assert ops[a].t <= ops[m].t;
  }

  lemma NoteOf(ops: seq<Op>, id: string, n: nat) returns (o: nat)
    requires n < |Events(ops, id)| && Events(ops, id)[n].Noted?
    ensures o < |ops| && ops[o].Note? && Events(ops, id)[n].at == ops[o].t
  {
    var q;
    o, q := OpOf(ops, id, n);
    EventSays(ops[o], id, q);
  }

  lemma NoteNotOccupied(op: Op, id: string)
    requires op.Note?
    ensures !AllOccupied(EventsOf(op, id))
  {
    assert !Occupied(EventsOf(op, id)[0]);
  }

  /** Entering and leaving, event by event: in by a counting series that spans
      12 s, out by absence or by free samples 8 s apart with no
      counting sample between. */
  lemma EntersAndLeavesExactly(evs: seq<Ev>, e: Ev)
    requires NonDecreasing(evs + [e])
    ensures var before, after := SlotRun(EMPTY, evs).latched, SlotRun(EMPTY, evs + [e]).latched;
      && (!before ==> (after <==> EntersAt(evs + [e], |evs|)))
      && (before && !e.Absent? ==> (!after <==> exists i: nat :: Brackets(evs + [e], i, |evs|)))
      && (e.Absent? ==> !after)
  {
    var all := evs + [e];
    assert NonDecreasing(evs) by { assert forall k :: 0 <= k < |evs| ==> all[k] == evs[k]; }
    FoldFollows(evs);
    assert all[..|evs|] == evs;
    var s := SlotRun(EMPTY, evs);
    if !s.latched { UnlatchedStep(evs, e, s); }
    else if Free(e) { LatchedFreeStep(evs, e, s); }
    else {
      LatchedNotFreeStep(evs, e, s);
      assert forall i: nat :: !Brackets(all, i, |evs|);
    }
  }

  lemma {:induction false} SlotKeys(evs: seq<Ev>)
    ensures var s := SlotRun(EMPTY, evs); s.clear.Some? ==> s.latched && s.candidate == None
  {
    if evs != [] { SlotKeys(evs[..|evs| - 1]); }
  }

  /** In every run, whatever the times: a slot being cleared is latched and is
      not a candidate. */
  lemma ClearKeysInsideLatched(ops: seq<Op>)
    ensures Run(ops).clearSince.Keys <= Run(ops).latched
    ensures Run(ops).clearSince.Keys !! Run(ops).candidateSince.Keys
  {
    forall id | id in Run(ops).clearSince ensures id in Run(ops).latched && id !in Run(ops).candidateSince {
      WatchProjects(ops, id);
      SlotKeys(Events(ops, id));
      assert Slot(Run(ops), id).clear.Some?;
    }
  }
}
