/** The in-process model cache: GPU residents, the RAM shelf, and the retry loop
    that reloads a lower placement when a job's callback fails. Live memory
    readings, load results and callback outcomes are arbitrary at every step. */
module ModelCache {
  import opened Base
  import opened Ladder

  const GIB: nat := 0x4000_0000

  /** The `|`-separated cache key: `rest` prints the strategy, the device ids and
      the layer budget; the strategy is also kept readable. */
  datatype Key = Key(path: string, strategy: Strategy, rest: string)

  datatype Resident = Resident(layers: nat, loadTier: nat, mtmd: bool, lastUsed: nat)

  datatype Shelved = Shelved(bytes: nat, lastUsed: nat)

  datatype CallResult = CallOk | VocabZero | GpuDecode | VramPressure | OtherError

  /** What a callback sees: the layers and tier of the resident, the labels of
      the list it was picked from, whether the projector is up, and the sticky
      Metal flag. */
  datatype Sight = Sight(layers: nat, tier: nat, labels: seq<Tier>, vision: bool, unreliable: bool)

  /** One run of the callback on a pool. */
  datatype Call = Call(strategy: Strategy, saw: Sight, result: CallResult)

  predicate Discrete(s: Strategy) { s.Single? || s.TensorParallel? || s.Vulkan? }

  predicate Cascades(r: CallResult) { r.VramPressure? || DecodeFailure(r) }

  predicate DecodeFailure(r: CallResult) { r.VocabZero? || r.GpuDecode? }

  // ---- the cascade indices ----

  /** `load_candidate_labels`. */
  function Labels(list: seq<Candidate>): (tiers: seq<Tier>)
    ensures |tiers| == |list| && forall i :: 0 <= i < |list| ==> tiers[i] == list[i].tier
  {
    seq(|list|, i requires 0 <= i < |list| => list[i].tier)
  }

  function Position(tiers: seq<Tier>, p: Tier -> bool): (i: nat)
    ensures i <= |tiers|
    ensures i < |tiers| ==> p(tiers[i])
    ensures forall j :: 0 <= j < i ==> !p(tiers[j])
  {
    if tiers == [] then 0 else if p(tiers[0]) then 0 else 1 + Position(tiers[1..], p)
  }

  function NextCascadeIndex(relisted: seq<Tier>, failed: Tier): nat
  {
    if failed.GpuFull? then Position(relisted, (l: Tier) => !l.GpuFull?)
    else if relisted != [] && relisted[0].GpuFull? then 0
    else
      var i := Position(relisted, (l: Tier) => l == failed);
      if i < |relisted| then i + 1 else |relisted|
  }

  function NextStart(relisted: seq<Tier>, err: CallResult, failed: Tier): nat
  {
    if DecodeFailure(err) then NextCpuCascadeIndex(relisted) else NextCascadeIndex(relisted, failed)
  }

  /** The label of the placement that failed, in the list read before it. */
  function FailedTier(tiers: seq<Tier>, tier: nat): Tier { if tier < |tiers| then tiers[tier] else GpuFull }

  function NextCpuCascadeIndex(tiers: seq<Tier>): nat { Position(tiers, (l: Tier) => IsCpuTier(l)) }

  /** After a failed full load the first other tier; after any other failure the
      full load where it is listed first, or else the tier behind the failed one. */
  lemma NextCascadeIndexMeans(list: seq<Tier>, failed: Tier)
    ensures var next := NextCascadeIndex(list, failed);
      && next <= |list|
      && (failed == GpuFull ==> (forall j :: 0 <= j < next ==> list[j] == GpuFull) && (next < |list| ==> list[next] != GpuFull))
      && (failed != GpuFull && list != [] && list[0] == GpuFull ==> next == 0)
      && (failed != GpuFull && (list == [] || list[0] != GpuFull) && failed in list ==>
        next > 0 && list[next - 1] == failed && failed !in list[..next - 1])
      && (failed != GpuFull && failed !in list && (list == [] || list[0] != GpuFull) ==> next == |list|)
  {
    var i := Position(list, (l: Tier) => l == failed);
    assert i < |list| <==> failed in list;
  }

  /** After a decode failure the first tier without GPU layers of the list. */
  lemma NextCpuCascadeIndexMeans(pool: Pool, unreliable: bool, r: Reading)
    ensures var list := Candidates(pool, unreliable, r);
      var next := NextCpuCascadeIndex(Labels(list));
      && next <= |list| && (next < |list| ==> list[next].layers == 0)
      && (forall j :: 0 <= j < next ==> list[j].layers >= 1)
      && (next < |list| <==> pool.strategy.Metal? || pool.strategy.CpuOnly?)
  {
    EveryListIsALadder(pool, unreliable, r);
  }

  /** The tiers tried when every load succeeds, every callback runs out of VRAM
      and the list stays the same. */
  function Tried(tiers: seq<Tier>, at: nat, attempts: nat): seq<nat>
    decreases attempts
  {
    if attempts == 0 || at >= |tiers| then []
    else [at] + Tried(tiers, NextCascadeIndex(tiers, tiers[at]), attempts - 1)
  }

  predicate Ascending(tiers: seq<Tier>)
  {
    forall i, j :: 0 <= i < j < |tiers| ==> Rank(tiers[i]) < Rank(tiers[j])
  }

  lemma {:induction false} FullFrontAlternates(tiers: seq<Tier>, at: nat, attempts: nat)
    requires Ascending(tiers) && |tiers| >= 2 && tiers[0].GpuFull? && at <= 1
    ensures |Tried(tiers, at, attempts)| == attempts
    ensures forall k :: 0 <= k < attempts ==> Tried(tiers, at, attempts)[k] == (at + k) % 2
    decreases attempts
  {
    if attempts > 0 {
      var next := NextCascadeIndex(tiers, tiers[at]);
      assert Rank(tiers[0]) < Rank(tiers[1]);
      assert next == 1 - at;
      FullFrontAlternates(tiers, next, attempts - 1);
      forall k | 0 <= k < attempts ensures Tried(tiers, at, attempts)[k] == (at + k) % 2 {
        if k > 0 { assert Tried(tiers, at, attempts)[k] == Tried(tiers, next, attempts - 1)[k - 1]; }
      }
    }
  }

  lemma {:induction false} OffloadFrontDescends(tiers: seq<Tier>, at: nat, attempts: nat)
    requires Ascending(tiers) && tiers != [] && !tiers[0].GpuFull? && at <= |tiers| && |tiers| - at <= attempts
    ensures Tried(tiers, at, attempts) == seq(|tiers| - at, i => at + i)
    decreases attempts
  {
    if attempts > 0 && at < |tiers| {
      assert Rank(tiers[0]) <= Rank(tiers[at]) && !tiers[at].GpuFull?;
      assert NextCascadeIndex(tiers, tiers[at]) == at + 1;
      OffloadFrontDescends(tiers, at + 1, attempts - 1);
    }
  }

  predicate ReachesReduced(tiers: seq<Tier>, attempts: nat)
  {
    exists i :: i in Tried(tiers, 0, attempts) && i < |tiers| && tiers[i].GpuOffloadReduced?
  }

  /** The documented walk gpu-full, gpu-offload, gpu-offload-reduced is not what
      the code does on an unchanged list: after a failed offload it goes back to
      gpu-full whenever the fresh list offers it, so the reduced tier is reached,
      in however many attempts, exactly when gpu-full is not offered. */
  lemma ReducedTierTriedIff(tiers: seq<Tier>, attempts: nat)
    requires Ascending(tiers) && GpuOffload in tiers && GpuOffloadReduced in tiers && |tiers| <= attempts
    ensures ReachesReduced(tiers, attempts) <==> GpuFull !in tiers
  {
    assert forall i :: 0 < i < |tiers| ==> Rank(tiers[0]) < Rank(tiers[i]);
    if tiers[0].GpuFull? {
      var o :| 0 <= o < |tiers| && tiers[o].GpuOffload?;
      FullFrontAlternates(tiers, 0, attempts);
      assert forall i :: i in Tried(tiers, 0, attempts) ==> i <= 1;
      assert Rank(tiers[1]) <= Rank(tiers[o]);
    } else {
      var d :| 0 <= d < |tiers| && tiers[d].GpuOffloadReduced?;
      OffloadFrontDescends(tiers, 0, attempts);
      assert Tried(tiers, 0, attempts)[d] == d;
    }
  }

  // ---- one load through the candidate list ----

  datatype LoadOutcome = Loads | Fails(gpuAlloc: bool, vramPressure: bool)

  /** What the machine answers to one load: the reading behind its candidate list
      and how loading each candidate ends. */
  datatype LoadEnv = LoadEnv(reading: Reading, outcome: nat -> LoadOutcome)

  predicate GpuOom(list: seq<Candidate>, outcome: nat -> LoadOutcome, i: nat)
  {
    i < |list| && !IsCpuTier(list[i].tier) && outcome(i).Fails? && outcome(i).gpuAlloc
  }

  /** A GPU tier behind one that failed to allocate. */
  predicate Skipped(list: seq<Candidate>, start: nat, outcome: nat -> LoadOutcome, i: nat)
  {
    i < |list| && !IsCpuTier(list[i].tier) && exists j: nat :: start <= j < i && GpuOom(list, outcome, j)
  }

  /** The last candidate tried below `n` failed under VRAM pressure. */
  predicate EndsInPressure(list: seq<Candidate>, start: nat, outcome: nat -> LoadOutcome, n: nat)
  {
    exists i: nat ::
      && start <= i < n && i < |list| && !Skipped(list, start, outcome, i)
      && outcome(i).Fails? && outcome(i).vramPressure
      && forall j: nat :: i < j < n ==> Skipped(list, start, outcome, j)
  }

  predicate LoadsAt(list: seq<Candidate>, start: nat, outcome: nat -> LoadOutcome, at: nat)
  {
    && start <= at < |list| && outcome(at).Loads? && !Skipped(list, start, outcome, at)
    && forall i: nat :: start <= i < at ==> outcome(i).Fails? || Skipped(list, start, outcome, i)
  }

  predicate LoadsNone(list: seq<Candidate>, start: nat, outcome: nat -> LoadOutcome)
  {
    forall i: nat :: start <= i < |list| ==> outcome(i).Fails? || Skipped(list, start, outcome, i)
  }

  lemma PressureStep(list: seq<Candidate>, start: nat, outcome: nat -> LoadOutcome, i: nat, before: bool, after: bool)
    requires start <= i < |list|
    requires before == EndsInPressure(list, start, outcome, i)
    requires after == if Skipped(list, start, outcome, i) then before else outcome(i).Fails? && outcome(i).vramPressure
    ensures after == EndsInPressure(list, start, outcome, i + 1)
  {
    if Skipped(list, start, outcome, i) {
      if before {
        var l: nat :|
          && start <= l < i && l < |list| && !Skipped(list, start, outcome, l)
          && outcome(l).Fails? && outcome(l).vramPressure
          && forall j: nat :: l < j < i ==> Skipped(list, start, outcome, j);
        assert forall j: nat :: l < j < i + 1 ==> Skipped(list, start, outcome, j);
      }
    } else if after {
      assert forall j: nat :: i < j < i + 1 ==> Skipped(list, start, outcome, j);
    }
  }

  /** The first candidate from `start` on that loads; after a GPU allocation
      failure the remaining GPU tiers are not tried. */
  method LoadStartingAt(list: seq<Candidate>, start: nat, outcome: nat -> LoadOutcome)
    returns (idx: Option<nat>, lastPressure: bool)
    ensures idx.Some? ==> LoadsAt(list, start, outcome, idx.value)
    ensures idx.None? ==> LoadsNone(list, start, outcome) && lastPressure == EndsInPressure(list, start, outcome, |list|)
  {
    var skipGpu := false;
    lastPressure := false;
    var i := start;
    while i < |list|
      invariant start <= i && (i <= |list| || i == start)
      invariant lastPressure == EndsInPressure(list, start, outcome, i)
      invariant skipGpu <==> exists j: nat :: start <= j < i && GpuOom(list, outcome, j)
      invariant forall j: nat :: start <= j < i && j < |list| ==> outcome(j).Fails? || Skipped(list, start, outcome, j)
    {
      ghost var before := lastPressure;
      if !(skipGpu && !IsCpuTier(list[i].tier)) {
        match outcome(i) {
          case Loads => return Some(i), lastPressure;
          case Fails(gpuAlloc, pressure) =>
            lastPressure := pressure;
            if !IsCpuTier(list[i].tier) && gpuAlloc {
              skipGpu := true;
            }
            assert GpuOom(list, outcome, i) <==> !IsCpuTier(list[i].tier) && gpuAlloc;
        }
      }
      PressureStep(list, start, outcome, i, before, lastPressure);
      i := i + 1;
    }
    return None, lastPressure;
  }

  /** In plain terms: a GPU candidate loads only while no GPU tier before it ran
      out of memory, and the first candidate that may load and would is taken. */
  lemma LoadsAtIff(pool: Pool, unreliable: bool, env: LoadEnv, start: nat, at: nat)
    ensures LoadsAt(Candidates(pool, unreliable, env.reading), start, env.outcome, at) <==>
      && WouldLoad(Candidates(pool, unreliable, env.reading), start, env.outcome, at)
      && forall i: nat :: start <= i < at ==> !WouldLoad(Candidates(pool, unreliable, env.reading), start, env.outcome, i)
  {
    EveryListIsALadder(pool, unreliable, env.reading);
    var list := Candidates(pool, unreliable, env.reading);
    forall i: nat
      ensures WouldLoad(list, start, env.outcome, i) <==>
        start <= i < |list| && env.outcome(i).Loads? && !Skipped(list, start, env.outcome, i)
    {
      WouldLoadIff(list, start, env.outcome, i);
    }
  }

  ghost predicate WouldLoad(list: seq<Candidate>, start: nat, outcome: nat -> LoadOutcome, i: nat)
  {
    && start <= i < |list| && outcome(i) == Loads
    && (list[i].layers == 0 || forall j: nat :: start <= j < i && list[j].layers > 0 ==> outcome(j) == Loads || !outcome(j).gpuAlloc)
  }

  lemma WouldLoadIff(list: seq<Candidate>, start: nat, outcome: nat -> LoadOutcome, i: nat)
    requires forall j :: 0 <= j < |list| ==> (list[j].layers == 0 <==> IsCpuTier(list[j].tier))
    ensures WouldLoad(list, start, outcome, i) <==> start <= i < |list| && outcome(i).Loads? && !Skipped(list, start, outcome, i)
  {
    if start <= i < |list| {
      assert forall j: nat :: start <= j < i ==>
        (GpuOom(list, outcome, j) <==> list[j].layers > 0 && outcome(j) != Loads && outcome(j).gpuAlloc);
    }
  }

  // ---- the RAM shelf ----

  function RamReserveGb(ramGb: nat): nat { Max(4, (ramGb + 4) / 8) }

  function RamBudgetBytes(ramGb: nat): nat { Max(ramGb - RamReserveGb(ramGb), 0) * GIB }

  /** The budget is what installed RAM exceeds the reserve by: 4 GB, or from 36 GB
      on the eighth rounded half up. */
  lemma RamBudgetMeans(ramGb: nat)
    ensures ramGb <= 4 ==> RamBudgetBytes(ramGb) == 0
    ensures 4 <= ramGb <= 35 ==> RamBudgetBytes(ramGb) == (ramGb - 4) * 1_073_741_824
    ensures 36 <= ramGb ==> exists reserve: nat ::
      8 * reserve - 4 <= ramGb < 8 * reserve + 4 && RamBudgetBytes(ramGb) == (ramGb - reserve) * 1_073_741_824
  {
    var reserve := (ramGb + 4) / 8;
    assert 8 * reserve - 4 <= ramGb < 8 * reserve + 4;
  }

  lemma BudgetMonotone(a: nat, b: nat)
    requires a <= b
    ensures RamBudgetBytes(a) <= RamBudgetBytes(b)
  {
  }

  ghost function RamUsed(ram: map<string, Shelved>): nat
  {
    if ram == map[] then 0 else var k :| k in ram; ram[k].bytes + RamUsed(ram - {k})
  }

  lemma {:induction false} RamUsedRemove(ram: map<string, Shelved>, k: string)
    requires k in ram
    ensures RamUsed(ram) == ram[k].bytes + RamUsed(ram - {k})
    decreases |ram|
  {
    var c :| c in ram && RamUsed(ram) == ram[c].bytes + RamUsed(ram - {c});
    if c != k {
      RamUsedRemove(ram - {c}, k);
      RamUsedRemove(ram - {k}, c);
      assert ram - {c} - {k} == ram - {k} - {c};
    }
  }

  lemma RamUsedInsert(ram: map<string, Shelved>, k: string, e: Shelved)
    requires k !in ram
    ensures RamUsed(ram[k := e]) == RamUsed(ram) + e.bytes
  {
    RamUsedRemove(ram[k := e], k);
    assert ram[k := e] - {k} == ram;
  }

  lemma RamUsedTouch(ram: map<string, Shelved>, k: string, t: nat)
    requires k in ram
    ensures RamUsed(ram[k := ram[k].(lastUsed := t)]) == RamUsed(ram)
  {
    var touched := ram[k := ram[k].(lastUsed := t)];
    RamUsedRemove(ram, k);
    RamUsedRemove(touched, k);
    assert touched - {k} == ram - {k};
  }

  lemma {:induction false} RamUsedSubset(a: map<string, Shelved>, b: map<string, Shelved>)
    requires Within(a, b)
    ensures RamUsed(a) <= RamUsed(b)
    decreases |b|
  {
    if b != map[] {
      var k :| k in b;
      RamUsedRemove(b, k);
      if k in a { RamUsedRemove(a, k); RamUsedSubset(a - {k}, b - {k}); } else { RamUsedSubset(a, b - {k}); }
    }
  }

  predicate Within(a: map<string, Shelved>, b: map<string, Shelved>)
  {
    forall k :: k in a ==> k in b && a[k] == b[k]
  }

  method SumBytes(ram: map<string, Shelved>) returns (used: nat)
    ensures used == RamUsed(ram)
  {
    used := 0;
    var rest := ram;
    while rest != map[]
      invariant used + RamUsed(rest) == RamUsed(ram)
      decreases |rest|
    {
      var k :| k in rest;
      RamUsedRemove(rest, k);
      used := used + rest[k].bytes;
      rest := rest - {k};
    }
  }

  /** What trimming owes its caller: it keeps the most recently used entries,
      stops as soon as the request fits, and removes no more than that takes. */
  ghost predicate TrimmedLru(before: map<string, Shelved>, after: map<string, Shelved>, extra: nat, budget: nat)
  {
    && Within(after, before)
    && (RamUsed(after) + extra <= budget || after == map[])
    && (forall gone, kept :: gone in before && gone !in after && kept in after ==> before[gone].lastUsed <= after[kept].lastUsed)
    && (after != before ==> exists last ::
        && last in before && last !in after && RamUsed(after) + before[last].bytes + extra > budget
        && forall gone :: gone in before && gone !in after ==> before[gone].lastUsed <= before[last].lastUsed)
  }

  method TrimLru(ram: map<string, Shelved>, extra: nat, budget: nat) returns (kept: map<string, Shelved>)
    ensures TrimmedLru(ram, kept, extra, budget)
  {
    kept := ram;
    var used := SumBytes(kept);
    ghost var last: string := "";
    while used + extra > budget && kept != map[]
      invariant used == RamUsed(kept) && Within(kept, ram)
      invariant forall gone, k :: gone in ram && gone !in kept && k in kept ==> ram[gone].lastUsed <= kept[k].lastUsed
      invariant kept != ram ==> last in ram && last !in kept && used + ram[last].bytes + extra > budget
      invariant kept != ram ==> forall gone :: gone in ram && gone !in kept ==> ram[gone].lastUsed <= ram[last].lastUsed
      decreases |kept|
    {
      OldestExists(kept);
      var victim :| Oldest(kept, victim);
      RamUsedRemove(kept, victim);
      last := victim;
      kept := kept - {victim};
      used := SumBytes(kept);
    }
  }

  lemma {:induction false} OldestExists(ram: map<string, Shelved>)
    requires ram != map[]
    ensures exists v :: Oldest(ram, v)
    decreases |ram|
  {
    var c :| c in ram;
    var rest := ram - {c};
    if rest == map[] {
      OnlyOneIsOldest(ram, c);
    } else {
      OldestExists(rest);
      var v :| Oldest(rest, v);
      OldestOfTwo(ram, c, v);
    }
  }

  predicate Oldest(ram: map<string, Shelved>, v: string)
  {
    v in ram && forall k :: k in ram ==> ram[v].lastUsed <= ram[k].lastUsed
  }

  lemma OnlyOneIsOldest(ram: map<string, Shelved>, c: string)
    requires c in ram && ram - {c} == map[]
    ensures Oldest(ram, c)
  {
    assert forall k :: k in ram && k != c ==> k in ram - {c};
  }

  lemma OldestOfTwo(ram: map<string, Shelved>, c: string, v: string)
    requires c in ram && Oldest(ram - {c}, v)
    ensures Oldest(ram, c) || Oldest(ram, v)
  {
    forall k | k in ram && k != c ensures ram[v].lastUsed <= ram[k].lastUsed {
      assert k in ram - {c};
    }
  }

  // ---- the cache ----

  predicate ResidentOk(k: Key, r: Resident, metalUnreliable: bool)
  {
    && (Discrete(k.strategy) ==> r.layers >= 1)
    && (k.strategy.Metal? && metalUnreliable ==> r.layers == 0)
  }

  predicate MetalDecodeFailure(c: Call) { c.strategy.Metal? && DecodeFailure(c.result) }

  /** Over everything the process ever ran: a discrete pool never saw a model
      without GPU layers, and once a Metal callback failed to decode, every later
      Metal callback ran with none. */
  predicate CallsOk(calls: seq<Call>, metalUnreliable: bool)
  {
    && (forall i :: 0 <= i < |calls| && Discrete(calls[i].strategy) ==> calls[i].saw.layers >= 1)
    && (forall i :: 0 <= i < |calls| && MetalDecodeFailure(calls[i]) ==> metalUnreliable)
    && (forall i, j :: 0 <= i < j < |calls| && MetalDecodeFailure(calls[i]) && calls[j].strategy.Metal? ==> calls[j].saw.layers == 0)
  }

  lemma CallAppends(calls: seq<Call>, flag: bool, c: Call, flagAfter: bool)
    requires CallsOk(calls, flag) && (flag ==> flagAfter) && (MetalDecodeFailure(c) ==> flagAfter)
    requires (Discrete(c.strategy) ==> c.saw.layers >= 1) && (c.strategy.Metal? && flag ==> c.saw.layers == 0)
    ensures CallsOk(calls + [c], flagAfter)
  {
  }

  /** The part of the text before the first `|`. */
  function FirstField(s: string): (field: string)
    ensures field <= s && '|' !in field && (field == s || s[|field|] == '|')
  {
    if s == "" || s[0] == '|' then "" else [s[0]] + FirstField(s[1..])
  }

  datatype Done = Success | LoadError | ListError | VisionError | Failed(result: CallResult)

  // ---- what the machine does during one call ----

  /** A load and its one retry. */
  datatype Loading = Loading(first: LoadEnv, again: LoadEnv)

  /** Shelving one dropped file: its size, the RAM readings and whether it maps.
      A missing total counts as 16 in `trimGb` and `ramGb`. */
  datatype Shelving = Shelving(bytes: nat, trimGb: nat, ramGb: nat, live: Option<(nat, nat)>, maps: bool)

  /** Before the first callback; the projector initializes or not. */
  datatype Opening = Opening(shelving: Shelving, loading: Loading, labels: Reading, projector: bool)

  /** One callback and, where it is retried, the relisting and reload after it. */
  datatype Round = Round(result: CallResult, labels: Reading, loading: Loading, projector: bool)

  // ---- what one call owes its caller ----

  /** The first load ran out of VRAM from the top: nothing was listed, or nothing
      loaded and the last failure was one of memory. */
  ghost predicate LoadsAgain(pool: Pool, unreliable: bool, start: nat, l: Loading)
  {
    var list := Candidates(pool, unreliable, l.first.reading);
    && start == 0 && LoadsNone(list, 0, l.first.outcome)
    && (list == [] || EndsInPressure(list, 0, l.first.outcome, |list|))
  }

  ghost predicate Lands(pool: Pool, unreliable: bool, start: nat, l: Loading, tier: nat, layers: nat)
  {
    var first, again := Candidates(pool, unreliable, l.first.reading), Candidates(pool, unreliable, l.again.reading);
    || (LoadsAt(first, start, l.first.outcome, tier) && layers == first[tier].layers)
    || (LoadsAgain(pool, unreliable, start, l) && LoadsAt(again, 0, l.again.outcome, tier) && layers == again[tier].layers)
  }

  ghost predicate NothingLoads(pool: Pool, unreliable: bool, start: nat, l: Loading)
  {
    && LoadsNone(Candidates(pool, unreliable, l.first.reading), start, l.first.outcome)
    && (LoadsAgain(pool, unreliable, start, l) ==>
      LoadsNone(Candidates(pool, unreliable, l.again.reading), 0, l.again.outcome))
  }

  ghost function UnreliableAfter(c: Call): bool
  {
    c.saw.unreliable || (c.strategy.Metal? && (c.result.VocabZero? || c.result.GpuDecode?))
  }

  /** The list read after the callback, with the residents dropped. */
  ghost function Relisted(pool: Pool, c: Call, r: Round): seq<Candidate>
  {
    Candidates(pool, UnreliableAfter(c), r.labels)
  }

  /** The index the cascade goes on from in that list. */
  ghost function CascadeStart(c: Call, tiers: seq<Tier>): nat
  {
    if c.result.VramPressure? then
      NextCascadeIndex(tiers, if c.saw.tier < |c.saw.labels| then c.saw.labels[c.saw.tier] else GpuFull)
    else NextCpuCascadeIndex(tiers)
  }

  /** The callback that failed is run again on `next`: a model reloaded from the
      next tier of the fresh list, with the projector where it is needed. */
  ghost predicate GoesOn(pool: Pool, needVision: bool, c: Call, r: Round, next: Sight)
  {
    && (c.result.VramPressure? || c.result.VocabZero? || c.result.GpuDecode?)
    && next.labels == Labels(Relisted(pool, c, r)) && CascadeStart(c, next.labels) < |next.labels|
    && Lands(pool, UnreliableAfter(c), CascadeStart(c, next.labels), r.loading, next.tier, next.layers)
    && next.vision == needVision && (needVision ==> r.projector) && next.unreliable == UnreliableAfter(c)
  }

  /** How a call ends on its last callback: a cascading failure is final only
      after five callbacks, at the end of the cascade, or when the list, the
      reload or the projector fails. */
  ghost predicate EndsAs(pool: Pool, needVision: bool, c: Call, r: Round, callbacks: nat, done: Done)
  {
    var tiers := Labels(Relisted(pool, c, r));
    var start := CascadeStart(c, tiers);
    if c.result.CallOk? then done.Success?
    else if c.result.OtherError? || callbacks == 5 then done == Failed(c.result)
    else if tiers == [] then done.ListError?
    else if start >= |tiers| then done == Failed(c.result)
    else if NothingLoads(pool, UnreliableAfter(c), start, r.loading) then done.LoadError?
    else done.VisionError? && needVision && !r.projector
  }

  /** What shelving a dropped file does to the shelf: an entry is only touched;
      otherwise the file joins what the trim left exactly when it is not empty,
      fits the budget and the free RAM, and maps. */
  ghost predicate ShelvesTo(before: map<string, Shelved>, path: string, s: Shelving, now: nat, after: map<string, Shelved>)
  {
    if path in before then after == before[path := before[path].(lastUsed := now)]
    else
      && TrimmedLru(before, after - {path}, s.bytes, RamBudgetBytes(s.trimGb))
      && (path in after ==> after[path] == Shelved(s.bytes, now))
      && (path in after <==>
        && s.bytes > 0 && RamUsed(after - {path}) + s.bytes <= RamBudgetBytes(s.ramGb) && s.maps
        && (s.live.Some? ==> s.bytes <= Max(s.live.value.0 - s.live.value.1, 0) * 1_073_741_824))
  }

  ghost predicate LoadsFirst(pool: Pool, found: Option<Resident>, unreliable: bool, o: Opening)
  {
    found.Some? || !NothingLoads(pool, unreliable, 0, o.loading)
  }

  /** The resident found, or one loaded from the top of the list. */
  ghost predicate PlacedFirst(pool: Pool, found: Option<Resident>, unreliable: bool, o: Opening, r: Resident)
  {
    match found
    case Some(f) => r == f.(lastUsed := r.lastUsed)
    case None => Lands(pool, unreliable, 0, o.loading, r.loadTier, r.layers) && !r.mtmd
  }

  ghost predicate ProjectorUp(needVision: bool, found: Option<Resident>, o: Opening)
  {
    needVision ==> o.projector || (found.Some? && found.value.mtmd)
  }

  /** What the first callback sees. */
  ghost predicate StartsOn(pool: Pool, needVision: bool, found: Option<Resident>, unreliable: bool, o: Opening, first: Sight)
  {
    && first.labels == Labels(Candidates(pool, unreliable, o.labels)) && first.unreliable == unreliable
    && match found
       case Some(r) => first.tier == r.loadTier && first.layers == r.layers && first.vision == (r.mtmd || needVision)
       case None => Lands(pool, unreliable, 0, o.loading, first.tier, first.layers) && first.vision == needVision
  }

  lemma FirstSight(pool: Pool, needVision: bool, found: Option<Resident>, unreliable: bool, o: Opening,
                   placed: Resident, first: Sight)
    requires PlacedFirst(pool, found, unreliable, o, placed)
    requires first.labels == Labels(Candidates(pool, unreliable, o.labels)) && first.unreliable == unreliable
    requires first.layers == placed.layers && first.tier == placed.loadTier
    ensures first.vision == (placed.mtmd || needVision) ==> StartsOn(pool, needVision, found, unreliable, o, first)
  {
  }

  /** Each call but the last leads to the next as `step` says, the last one is
      as `end` says. */
  ghost predicate Story(made: seq<Call>, step: (nat, Call, Sight) -> bool, end: (nat, Call) -> bool)
  {
    forall k: nat {:trigger made[k]} :: k < |made| ==>
      if k + 1 < |made| then step(k, made[k], made[k + 1].saw) else end(k, made[k])
  }

  lemma StoryGrows(made: seq<Call>, c: Call, step: (nat, Call, Sight) -> bool, end: (nat, Call) -> bool)
    requires Story(made, step, (k: nat, m: Call) => step(k, m, c.saw)) && end(|made|, c)
    ensures Story(made + [c], step, end)
  {
  }

  /** Call k answers the machine's round k, and the first one saw `first`. */
  ghost predicate Plays(pool: Pool, machine: nat -> Round, first: Sight, k: nat, c: Call)
  {
    c.strategy == pool.strategy && c.result == machine(k).result && (k == 0 ==> c.saw == first)
  }

  ghost function Step(pool: Pool, needVision: bool, machine: nat -> Round, first: Sight): (nat, Call, Sight) -> bool
  {
    (k: nat, c: Call, next: Sight) => Plays(pool, machine, first, k, c) && GoesOn(pool, needVision, c, machine(k), next)
  }

  ghost function End(pool: Pool, needVision: bool, machine: nat -> Round, first: Sight, done: Done): (nat, Call) -> bool
  {
    (k: nat, c: Call) => Plays(pool, machine, first, k, c) && EndsAs(pool, needVision, c, machine(k), k + 1, done)
  }

  /** The calls so far: each failed so that the next one was run on what it left,
      and the next one will see `next`. */
  ghost predicate Telling(pool: Pool, needVision: bool, machine: nat -> Round, first: Sight, made: seq<Call>, next: Sight)
  {
    var step := Step(pool, needVision, machine, first);
    (made == [] ==> next == first) && Story(made, step, (k: nat, c: Call) => step(k, c, next))
  }

  /** All the calls: as above, and on the last one the whole call ends. */
  ghost predicate Told(pool: Pool, needVision: bool, machine: nat -> Round, first: Sight, made: seq<Call>, done: Done)
  {
    made != [] && Story(made, Step(pool, needVision, machine, first), End(pool, needVision, machine, first, done))
  }

  lemma TellingGrows(pool: Pool, needVision: bool, machine: nat -> Round, first: Sight, made: seq<Call>, c: Call, next: Sight)
    requires Telling(pool, needVision, machine, first, made, c.saw) && Plays(pool, machine, first, |made|, c)
    requires GoesOn(pool, needVision, c, machine(|made|), next)
    ensures Telling(pool, needVision, machine, first, made + [c], next)
  {
    var step := Step(pool, needVision, machine, first);
    StoryGrows(made, c, step, (k: nat, c: Call) => step(k, c, next));
  }

  lemma TellingEnds(pool: Pool, needVision: bool, machine: nat -> Round, first: Sight, made: seq<Call>, c: Call, done: Done)
    requires Telling(pool, needVision, machine, first, made, c.saw) && Plays(pool, machine, first, |made|, c)
    requires EndsAs(pool, needVision, c, machine(|made|), |made| + 1, done)
    ensures Told(pool, needVision, machine, first, made + [c], done)
  {
    StoryGrows(made, c, Step(pool, needVision, machine, first), End(pool, needVision, machine, first, done));
  }

  /** A call that failed with a cascading error made five callbacks, or its last
      one left no later tier to go to. */
  lemma FailsOnlyAtTheEnd(pool: Pool, needVision: bool, machine: nat -> Round, first: Sight, made: seq<Call>, err: CallResult)
    requires Told(pool, needVision, machine, first, made, Failed(err)) && err != OtherError
    ensures made[|made| - 1].result == err == machine(|made| - 1).result
    ensures |made| == 5 || NoTierLeft(pool, made[|made| - 1], machine(|made| - 1))
  {
    ToldEnd(pool, needVision, machine, first, made, Failed(err));
    FailedEnd(pool, needVision, made[|made| - 1], machine(|made| - 1), |made|, err);
  }

  /** The list read after the callback, with nothing resident, has no tier behind
      the failed one, and after a decode failure none without GPU layers. */
  ghost predicate NoTierLeft(pool: Pool, c: Call, r: Round)
  {
    var tiers := Labels(Candidates(pool, UnreliableAfter(c), r.labels));
    var failed := if c.saw.tier < |c.saw.labels| then c.saw.labels[c.saw.tier] else GpuFull;
    && tiers != []
    && if c.result == VramPressure then NextCascadeIndex(tiers, failed) >= |tiers|
       else NextCpuCascadeIndex(tiers) >= |tiers|
  }

  lemma FailedEnd(pool: Pool, needVision: bool, c: Call, r: Round, callbacks: nat, err: CallResult)
    requires EndsAs(pool, needVision, c, r, callbacks, Failed(err)) && err != OtherError
    ensures c.result == err && (callbacks == 5 || NoTierLeft(pool, c, r))
  {
  }

  lemma ToldEnd(pool: Pool, needVision: bool, machine: nat -> Round, first: Sight, made: seq<Call>, done: Done)
    requires Told(pool, needVision, machine, first, made, done)
    ensures Plays(pool, machine, first, |made| - 1, made[|made| - 1])
    ensures EndsAs(pool, needVision, made[|made| - 1], machine(|made| - 1), |made|, done)
  {
    assert End(pool, needVision, machine, first, done)(|made| - 1, made[|made| - 1]);
  }

  lemma ToldStep(pool: Pool, needVision: bool, machine: nat -> Round, first: Sight, made: seq<Call>, done: Done, k: nat)
    requires Told(pool, needVision, machine, first, made, done) && k + 1 < |made|
    ensures Plays(pool, machine, first, k, made[k]) && GoesOn(pool, needVision, made[k], machine(k), made[k + 1].saw)
  {
    assert Step(pool, needVision, machine, first)(k, made[k], made[k + 1].saw);
  }

  /** The callback failed, a next tier is listed and loads, and the projector
      comes up if it is needed. */
  ghost predicate CanGoOn(pool: Pool, needVision: bool, c: Call, r: Round)
  {
    var tiers := Labels(Relisted(pool, c, r));
    && (c.result == VramPressure || c.result == VocabZero || c.result == GpuDecode)
    && CascadeStart(c, tiers) < |tiers| && !NothingLoads(pool, UnreliableAfter(c), CascadeStart(c, tiers), r.loading)
    && (needVision ==> r.projector)
  }

  /** As long as it can go on, the callback runs again, up to five times. */
  lemma RunsAgain(pool: Pool, needVision: bool, machine: nat -> Round, first: Sight, made: seq<Call>, done: Done, k: nat)
    requires Told(pool, needVision, machine, first, made, done) && k < |made| && k < 4
    requires CanGoOn(pool, needVision, made[k], machine(k))
    ensures k + 1 < |made| && GoesOn(pool, needVision, made[k], machine(k), made[k + 1].saw)
  {
    if k + 1 == |made| {
      ToldEnd(pool, needVision, machine, first, made, done);
      DoesNotEnd(pool, needVision, made[k], machine(k), k + 1, done);
    }
    ToldStep(pool, needVision, machine, first, made, done, k);
  }

  lemma DoesNotEnd(pool: Pool, needVision: bool, c: Call, r: Round, callbacks: nat, done: Done)
    requires CanGoOn(pool, needVision, c, r) && callbacks < 5
    ensures !EndsAs(pool, needVision, c, r, callbacks, done)
  {
  }

  function OnlyShelf(ram: map<string, Shelved>, keep: string): map<string, Shelved>
  {
    map k | k in ram && k == keep :: ram[k]
  }

  class Cache {
    var gpu: map<Key, Resident>
    var ram: map<string, Shelved>
    var metalUnreliable: bool
    var clock: nat
    ghost var calls: seq<Call>  // every callback of this process
    ghost var peakRamGb: nat    // the largest installed-RAM reading used so far

    ghost predicate Core()
      reads this
    {
      && (forall a, b :: a in gpu && b in gpu ==> a == b)
      && (forall k :: k in gpu ==> ResidentOk(k, gpu[k], metalUnreliable) && k.path !in ram)
      && CallsOk(calls, metalUnreliable)
      && RamUsed(ram) <= RamBudgetBytes(peakRamGb)
    }

    /** At most one resident, at most one shelved file, never the same path in
        both places, shelved bytes within the RAM budget. */
    ghost predicate Valid()
      reads this
    {
      Core() && forall a, b :: a in ram && b in ram ==> a == b
    }

    constructor (metalHint: bool)
      ensures Valid() && gpu == map[] && ram == map[] && calls == [] && metalUnreliable == metalHint
    {
      gpu, ram, metalUnreliable, clock, calls, peakRamGb := map[], map[], metalHint, 0, [], 0;
    }

    /** What a callback on the resident sees. */
    function Seen(key: Key, labels: seq<Tier>): Sight
      requires key in gpu
      reads this
    {
      Sight(gpu[key].layers, gpu[key].loadTier, labels, gpu[key].mtmd, metalUnreliable)
    }

    ghost function Found(key: Key): Option<Resident>
      reads this
    {
      if key in gpu then Some(gpu[key]) else None
    }

    /** A callback that ended keeps the resident it ran on, a lost projector the
        one reloaded; any other failure leaves nothing. */
    ghost predicate LeftBehind(key: Key, done: Done, made: seq<Call>)
      reads this
    {
      if done.Success? || done == Failed(OtherError) then
        gpu.Keys == {key} && forall k: nat {:trigger made[k]} :: k + 1 == |made| ==> Seen(key, made[k].saw.labels) == made[k].saw
      else gpu.Keys == if done.VisionError? then {key} else {}
    }

    method CanShelve(bytes: nat, ramGb: nat, live: Option<(nat, nat)>) returns (can: bool)
      modifies this`peakRamGb
      ensures peakRamGb >= old(peakRamGb) && (can ==> peakRamGb >= ramGb)
      ensures can <==>
        && bytes > 0 && RamUsed(ram) + bytes <= RamBudgetBytes(ramGb)
        && (live.Some? ==> bytes <= Max(live.value.0 - live.value.1, 0) * 1_073_741_824)
    {
      if bytes == 0 {
        return false;
      }
      peakRamGb := Max(peakRamGb, ramGb);
      var used := SumBytes(ram);
      if used + bytes > RamBudgetBytes(ramGb) {
        return false;
      }
      if live.Some? && Max(live.value.0 - live.value.1, 0) < (bytes + GIB - 1) / GIB {
        return false;
      }
      return true;
    }

    method TryShelveCpu(path: string, s: Shelving)
      requires RamUsed(ram) <= RamBudgetBytes(peakRamGb)
      modifies this`ram, this`clock, this`peakRamGb
      ensures RamUsed(ram) <= RamBudgetBytes(peakRamGb)
      ensures ShelvesTo(old(ram), path, s, clock, ram)
    {
      clock := clock + 1;
      if path in ram {
        RamUsedTouch(ram, path, clock);
        ram := ram[path := ram[path].(lastUsed := clock)];
        return;
      }
      var kept := TrimLru(ram, s.bytes, RamBudgetBytes(s.trimGb));
      RamUsedSubset(kept, ram);
      ram := kept;
      assert kept - {path} == kept;
      var can := CanShelve(s.bytes, s.ramGb, s.live);
      BudgetMonotone(old(peakRamGb), peakRamGb);
      if can && s.maps {
        BudgetMonotone(s.ramGb, peakRamGb);
        RamUsedInsert(ram, path, Shelved(s.bytes, clock));
        ram := ram[path := Shelved(s.bytes, clock)];
        assert ram - {path} == kept;
      }
    }

    /** The map now holds at most this path beside what it held. */
    lemma ShelvesBeside(before: map<string, Shelved>, path: string, s: Shelving, now: nat, after: map<string, Shelved>)
      requires ShelvesTo(before, path, s, now, after)
      ensures forall k :: k in after ==> k == path || k in before
    {
      assert forall k :: k in after && k != path ==> k in after - {path} || k in before;
    }

    method DropOtherRamShelves(keep: string)
      modifies this`ram
      ensures ram == map k | k in old(ram) && k == keep :: old(ram)[k]
      ensures RamUsed(ram) <= old(RamUsed(ram))
    {
      ram := map k | k in ram && k == keep :: ram[k];
      RamUsedSubset(ram, old(ram));
    }

    /** A cold load drops the other shelves and the one resident there can be,
        whose file is shelved unless the pool is Metal. */
    method MakeGpuRoom(keep: Key, s: Shelving) returns (other: string)
      requires Valid()
      modifies this`gpu, this`ram, this`clock, this`peakRamGb
      ensures Core()
      ensures keep in old(gpu) ==> gpu.Keys == {keep} && ram == old(ram)
      ensures keep in old(gpu) ==> gpu[keep] == old(gpu)[keep].(lastUsed := gpu[keep].lastUsed)
      ensures keep !in old(gpu) ==> gpu == map[]
      ensures keep !in old(gpu) ==> forall k :: k in ram ==> k == keep.path || k == other
      ensures keep !in old(gpu) && (keep.strategy.Metal? || old(gpu) == map[]) ==> ram == OnlyShelf(old(ram), keep.path)
      ensures keep !in old(gpu) && !keep.strategy.Metal? ==> forall k :: k in old(gpu) ==>
        ShelvesTo(OnlyShelf(old(ram), keep.path), FirstField(k.path), s, clock, ram)
    {
      clock := clock + 1;
      other := "";
      if keep in gpu {
        gpu := gpu[keep := gpu[keep].(lastUsed := clock)];
        return;
      }
      DropOtherRamShelves(keep.path);
      while gpu != map[]
        invariant Core() && forall k :: k in ram ==> k == keep.path || k == other
        invariant gpu == old(gpu) || gpu == map[]
        invariant gpu != map[] || old(gpu) == map[] || keep.strategy.Metal? ==> ram == OnlyShelf(old(ram), keep.path)
        invariant gpu == map[] && !keep.strategy.Metal? ==> forall k :: k in old(gpu) ==>
          ShelvesTo(OnlyShelf(old(ram), keep.path), FirstField(k.path), s, clock, ram)
        decreases |gpu|
      {
        other := DropResident(keep, s);
      }
    }

    /** The one resident goes; off Metal its file may join the shelf. */
    method DropResident(keep: Key, s: Shelving) returns (other: string)
      requires Core() && gpu != map[]
      modifies this`gpu, this`ram, this`clock, this`peakRamGb
      ensures Core() && gpu == map[]
      ensures forall k :: k in old(gpu) ==> other == FirstField(k.path)
      ensures forall k :: k in ram ==> k == other || k in old(ram)
      ensures keep.strategy.Metal? ==> ram == old(ram)
      ensures !keep.strategy.Metal? ==> ShelvesTo(old(ram), other, s, clock, ram)
    {
      var key :| key in gpu;
      assert forall k :: k in gpu ==> k == key;
      gpu := gpu - {key};
      assert gpu == map[];
      other := FirstField(key.path);
      if !keep.strategy.Metal? {
        TryShelveCpu(other, s);
        ShelvesBeside(old(ram), other, s, clock, ram);
      }
    }

    /** Load into an empty GPU map, from tier `start` on, once more from the top
        after VRAM pressure there. */
    method EnsureLoaded(key: Key, pool: Pool, start: nat, l: Loading) returns (loaded: bool)
      requires Core() && gpu == map[] && key.strategy == pool.strategy && key.path !in ram
      modifies this`gpu, this`clock
      ensures Core()
      ensures loaded <==> !NothingLoads(pool, metalUnreliable, start, l)
      ensures loaded ==> gpu.Keys == {key} && !gpu[key].mtmd
      ensures loaded ==> Lands(pool, metalUnreliable, start, l, gpu[key].loadTier, gpu[key].layers)
      ensures !loaded ==> gpu == map[]
    {
      var layers, tier, pressure;
      loaded, layers, tier, pressure := Load(pool, start, l.first);
      if !loaded && start == 0 && pressure {
        gpu := map[];
        loaded, layers, tier, pressure := Load(pool, 0, l.again);
      }
      if loaded {
        clock := clock + 1;
        gpu := gpu[key := Resident(layers, tier, false, clock)];
      }
    }

    /** One call of `load_model_for_pool_starting_at`, on a fresh candidate list. */
    method Load(pool: Pool, start: nat, env: LoadEnv) returns (loaded: bool, layers: nat, tier: nat, pressure: bool)
      ensures loaded ==> (Discrete(pool.strategy) ==> layers >= 1) && (pool.strategy.Metal? && metalUnreliable ==> layers == 0)
      ensures var list := Candidates(pool, metalUnreliable, env.reading);
        if loaded then LoadsAt(list, start, env.outcome, tier) && layers == list[tier].layers
        else LoadsNone(list, start, env.outcome) && (pressure <==> list == [] || EndsInPressure(list, start, env.outcome, |list|))
    {
      var list := LoadParamCandidates(pool, metalUnreliable, env.reading);
      if list.None? {
        return false, 0, 0, true;
      }
      EveryListIsALadder(pool, metalUnreliable, env.reading);
      var idx, lastPressure := LoadStartingAt(list.value, start, env.outcome);
      if idx.None? {
        return false, 0, 0, lastPressure;
      }
      return true, list.value[idx.value].layers, idx.value, false;
    }

    /** The labels of a fresh candidate list; it may fail for lack of VRAM. */
    method CandidateTiers(pool: Pool, r: Reading) returns (tiers: Option<seq<Tier>>)
      ensures tiers.None? <==> Candidates(pool, metalUnreliable, r) == []
      ensures tiers.Some? ==> tiers.value == Labels(Candidates(pool, metalUnreliable, r))
    {
      var list := LoadParamCandidates(pool, metalUnreliable, r);
      if list.None? {
        return None;
      }
      return Some(Labels(list.value));
    }

    /** `load_candidate_labels(..).unwrap_or_default()`. */
    method LabelsOrNone(pool: Pool, r: Reading) returns (labels: seq<Tier>)
      ensures labels == Labels(Candidates(pool, metalUnreliable, r))
    {
      var tiers := CandidateTiers(pool, r);
      labels := if tiers.Some? then tiers.value else [];
    }

    method EnsureMtmd(key: Key, projector: bool) returns (ok: bool)
      requires Valid() && gpu.Keys == {key}
      modifies this`gpu
      ensures Valid() && gpu.Keys == {key}
      ensures ok <==> old(gpu[key].mtmd) || projector
      ensures gpu[key] == old(gpu[key]).(mtmd := ok)
    {
      if gpu[key].mtmd {
        return true;
      }
      ok := projector;
      gpu := gpu[key := gpu[key].(mtmd := ok)];
    }

    /** After a failed callback with the residents dropped: pick the next tier
        from a fresh list and reload. */
    method Reload(key: Key, pool: Pool, c: Call, r: Round) returns (stop: Option<Done>, tiers: seq<Tier>)
      requires Core() && gpu == map[] && key.strategy == pool.strategy && key.path !in ram
      requires Cascades(c.result) && metalUnreliable == UnreliableAfter(c)
      modifies this`gpu, this`clock
      ensures Core()
      ensures tiers == Labels(Relisted(pool, c, r))
      ensures tiers == [] ==> stop == Some(ListError)
      ensures tiers != [] && CascadeStart(c, tiers) >= |tiers| ==> stop == Some(Failed(c.result))
      ensures CascadeStart(c, tiers) < |tiers| ==>
        stop == if NothingLoads(pool, metalUnreliable, CascadeStart(c, tiers), r.loading) then Some(LoadError) else None
      ensures stop.None? ==> gpu.Keys == {key} && !gpu[key].mtmd && CascadeStart(c, tiers) < |tiers|
      ensures stop.None? ==>
        Lands(pool, metalUnreliable, CascadeStart(c, tiers), r.loading, gpu[key].loadTier, gpu[key].layers)
      ensures stop.Some? ==> gpu == map[]
    {
      var relisted := CandidateTiers(pool, r.labels);
      if relisted.None? {
        return Some(ListError), [];
      }
      tiers := relisted.value;
      var start := NextStart(tiers, c.result, FailedTier(c.saw.labels, c.saw.tier));
      assert start == CascadeStart(c, tiers);
      if start >= |tiers| {
        return Some(Failed(c.result)), tiers;
      }
      var loaded := EnsureLoaded(key, pool, start, r.loading);
      return if loaded then None else Some(LoadError), tiers;
    }

    /** Make `key` the one resident, from the cache or by a load from tier 0. */
    method MakeResident(key: Key, pool: Pool, o: Opening) returns (loaded: bool)
      requires Valid() && key.strategy == pool.strategy
      modifies this`gpu, this`ram, this`clock, this`peakRamGb
      ensures Valid()
      ensures if loaded then gpu.Keys == {key} else gpu == map[]
      ensures loaded <==> LoadsFirst(pool, old(Found(key)), metalUnreliable, o)
      ensures loaded ==> PlacedFirst(pool, old(Found(key)), metalUnreliable, o, gpu[key])
      ensures key in old(gpu) ==> ram == old(ram)
      ensures key !in old(gpu) && (pool.strategy.Metal? || old(gpu) == map[]) ==> ram == map[]
    {
      var other := MakeGpuRoom(key, o.shelving);
      if key in gpu {
        return true;
      }
      RamUsedSubset(ram - {key.path}, ram);
      ram := ram - {key.path};
      loaded := EnsureLoaded(key, pool, 0, o.loading);
    }

    /** The callback on the resident; a cascading failure drops every resident,
        and on Metal a decode failure first sets the sticky flag. */
    method RunCallback(key: Key, labels: seq<Tier>, result: CallResult) returns (call: Call)
      requires Valid() && gpu.Keys == {key}
      modifies this`gpu, this`calls, this`metalUnreliable
      ensures Valid() && calls == old(calls) + [call]
      ensures call == Call(key.strategy, old(Seen(key, labels)), result)
      ensures metalUnreliable == UnreliableAfter(call)
      ensures gpu == if result.CallOk? || result.OtherError? then old(gpu) else map[]
    {
      call := Call(key.strategy, Seen(key, labels), result);
      ghost var flag := metalUnreliable;
      if DecodeFailure(result) && key.strategy.Metal? {
        metalUnreliable := true;
      }
      CallAppends(calls, flag, call, metalUnreliable);
      calls := calls + [call];
      if Cascades(result) {
        gpu := map[];
      }
    }

    /** One turn of the retry loop: after a cascading failure reload a later, or
        an earlier, tier of a fresh list. */
    method Attempt(key: Key, pool: Pool, tiers: seq<Tier>, hops: nat, needVision: bool, r: Round)
      returns (stop: Option<Done>, relisted: seq<Tier>, call: Call, ghost next: Sight)
      requires Valid() && gpu.Keys == {key} && key.strategy == pool.strategy && hops <= 4
      modifies this`gpu, this`clock, this`calls, this`metalUnreliable
      ensures Valid() && calls == old(calls) + [call]
      ensures call == Call(pool.strategy, old(Seen(key, tiers)), r.result)
      ensures stop.None? ==> gpu.Keys == {key} && next == Seen(key, relisted) && hops < 4
      ensures stop.None? ==> GoesOn(pool, needVision, call, r, next)
      ensures stop.Some? ==> EndsAs(pool, needVision, call, r, hops + 1, stop.value) && LeftBehind(key, stop.value, [call])
    {
      call := RunCallback(key, tiers, r.result);
      next := call.saw;
      relisted := tiers;
      if !Cascades(r.result) {
        return Some(if r.result.CallOk? then Success else Failed(r.result)), relisted, call, next;
      }
      if hops + 1 > 4 {
        return Some(Failed(r.result)), relisted, call, next;
      }
      stop, relisted := Reload(key, pool, call, r);
      if stop.None? && needVision {
        var ok := EnsureMtmd(key, r.projector);
        if !ok {
          stop := Some(VisionError);
        }
      }
      if stop.None? {
        next := Seen(key, relisted);
      }
    }

    /** The turn on top of those made so far. */
    method Turn(key: Key, pool: Pool, tiers: seq<Tier>, hops: nat, needVision: bool, machine: nat -> Round, ghost first: Sight,
                ghost made: seq<Call>) returns (stop: Option<Done>, relisted: seq<Tier>, ghost call: Call, ghost next: Sight)
      requires Valid() && gpu.Keys == {key} && key.strategy == pool.strategy && hops == |made| <= 4
      requires Telling(pool, needVision, machine, first, made, Seen(key, tiers))
      modifies this`gpu, this`clock, this`calls, this`metalUnreliable
      ensures Valid() && calls == old(calls) + [call]
      ensures stop.None? ==> gpu.Keys == {key} && next == Seen(key, relisted) && hops < 4
      ensures stop.None? ==> Telling(pool, needVision, machine, first, made + [call], next)
      ensures stop.Some? ==> Told(pool, needVision, machine, first, made + [call], stop.value)
      ensures stop.Some? ==> LeftBehind(key, stop.value, made + [call])
    {
      stop, relisted, call, next := Attempt(key, pool, tiers, hops, needVision, machine(hops));
      if stop.None? {
        TellingGrows(pool, needVision, machine, first, made, call, next);
      } else {
        TellingEnds(pool, needVision, machine, first, made, call, stop.value);
      }
    }

    /** The retry loop on a loaded model: each callback but the last is followed
        by the one it falls back to, at most five in all. */
    method RetryLoop(key: Key, pool: Pool, firstTiers: seq<Tier>, needVision: bool, machine: nat -> Round)
      returns (done: Done, ghost made: seq<Call>)
      requires Valid() && gpu.Keys == {key} && key.strategy == pool.strategy
      modifies this`gpu, this`clock, this`calls, this`metalUnreliable
      ensures Valid() && calls == old(calls) + made && 1 <= |made| <= 5
      ensures Told(pool, needVision, machine, old(Seen(key, firstTiers)), made, done)
      ensures LeftBehind(key, done, made)
    {
      made := [];
      var tiers := firstTiers;
      ghost var first, sight := Seen(key, tiers), Seen(key, tiers);
      var hops := 0;
      while true
        invariant Valid() && gpu.Keys == {key} && hops == |made| <= 4 && calls == old(calls) + made
        invariant sight == Seen(key, tiers) && Telling(pool, needVision, machine, first, made, sight)
        decreases 5 - hops
      {
        var stop;
        ghost var call;
        stop, tiers, call, sight := Turn(key, pool, tiers, hops, needVision, machine, first, made);
        assert old(calls) + made + [call] == old(calls) + (made + [call]);
        made := made + [call];
        hops := hops + 1;
        if stop.Some? {
          done := stop.value;
          return;
        }
      }
    }

    /** `with_loaded_weights`, one critical section of the cache lock. For every
        behaviour of the machine it fixes which placements the callback runs on,
        how often, and how the call ends. */
    method WithLoadedWeights(key: Key, pool: Pool, needVision: bool, o: Opening, machine: nat -> Round)
      returns (done: Done, ghost first: Sight, ghost made: seq<Call>)
      requires Valid() && key.strategy == pool.strategy
      modifies this
      ensures Valid()
      ensures calls == old(calls) + made && |made| <= 5
      ensures !LoadsFirst(pool, old(Found(key)), old(metalUnreliable), o) ==> made == [] && done.LoadError? && gpu == map[]
      ensures LoadsFirst(pool, old(Found(key)), old(metalUnreliable), o) ==>
        if ProjectorUp(needVision, old(Found(key)), o) then made != [] else made == [] && done.VisionError? && gpu.Keys == {key}
      ensures made != [] ==> StartsOn(pool, needVision, old(Found(key)), old(metalUnreliable), o, first)
      ensures made != [] ==> Told(pool, needVision, machine, first, made, done) && LeftBehind(key, done, made)
      ensures key in old(gpu) ==> ram == old(ram)
      ensures key !in old(gpu) && (pool.strategy.Metal? || old(gpu) == map[]) ==> ram == map[]
    {
      made := [];
      var stop, labels := Prepare(key, pool, needVision, o);
      first := Sight(0, 0, [], false, false);
      if stop.Some? {
        done := stop.value;
        return;
      }
      first := Seen(key, labels);
      done, made := RetryLoop(key, pool, labels, needVision, machine);
    }

    /** Everything before the first callback; the labels default to none. */
    method Prepare(key: Key, pool: Pool, needVision: bool, o: Opening) returns (stop: Option<Done>, labels: seq<Tier>)
      requires Valid() && key.strategy == pool.strategy
      modifies this`gpu, this`ram, this`clock, this`peakRamGb
      ensures Valid()
      ensures !LoadsFirst(pool, old(Found(key)), metalUnreliable, o) ==> stop == Some(LoadError) && gpu == map[]
      ensures LoadsFirst(pool, old(Found(key)), metalUnreliable, o) ==>
        gpu.Keys == {key} && stop == if ProjectorUp(needVision, old(Found(key)), o) then None else Some(VisionError)
      ensures stop.None? ==> StartsOn(pool, needVision, old(Found(key)), metalUnreliable, o, Seen(key, labels))
      ensures key in old(gpu) ==> ram == old(ram)
      ensures key !in old(gpu) && (pool.strategy.Metal? || old(gpu) == map[]) ==> ram == map[]
    {
      var loaded := MakeResident(key, pool, o);
      if !loaded {
        return Some(LoadError), [];
      }
      stop, labels := FirstView(key, pool, needVision, o, old(Found(key)));
    }

    method FirstView(key: Key, pool: Pool, needVision: bool, o: Opening, ghost found: Option<Resident>)
      returns (stop: Option<Done>, labels: seq<Tier>)
      requires Valid() && gpu.Keys == {key} && PlacedFirst(pool, found, metalUnreliable, o, gpu[key])
      modifies this`gpu
      ensures Valid() && gpu.Keys == {key}
      ensures stop == if ProjectorUp(needVision, found, o) then None else Some(VisionError)
      ensures stop.None? ==> StartsOn(pool, needVision, found, metalUnreliable, o, Seen(key, labels))
    {
      labels := LabelsOrNone(pool, o.labels);
      stop := None;
      ghost var placed := gpu[key];
      if needVision {
        var ok := EnsureMtmd(key, o.projector);
        if !ok {
          stop := Some(VisionError);
        }
      }
      FirstSight(pool, needVision, found, metalUnreliable, o, placed, Seen(key, labels));
    }

    method EvictAll()
      requires Valid()
      modifies this`gpu, this`ram
      ensures Valid() && gpu == map[] && ram == map[]
    {
      gpu, ram := map[], map[];
    }

    /** Drops every resident whose key text starts with the path, so also one
        whose file name merely extends it. */
    method EvictAllForPath(path: string)
      requires Valid()
      modifies this`gpu, this`ram
      ensures Valid()
      ensures ram == old(ram) - {path} && path !in ram
      ensures gpu == map k | k in old(gpu) && !(path <= k.path + "|" + k.rest) :: old(gpu)[k]
      ensures forall k :: k in gpu ==> k.path != path
    {
      RamUsedSubset(ram - {path}, ram);
      gpu := map k | k in gpu && !(path <= k.path + "|" + k.rest) :: gpu[k];
      ram := ram - {path};
    }
  }
}
