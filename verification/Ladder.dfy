/** The ordered list of load placements for a pool: how many layers fit, which
    tiers are offered, and in what order. Sizes in GB are reals. */
module Ladder {
  import opened Base

  datatype Tier = GpuFull | GpuOffload | GpuOffloadReduced | CpuMetal | CpuLabel

  /** `primary` and `primaryVram` are `primary_cuda_device` and
      `primary_cuda_vram_gb`; `vrams` is `cuda_device_vram_gb`. */
  datatype Pool = Pool(
    strategy: Strategy, totalVram: nat, layerBudget: nat, cudaIds: seq<nat>,
    primary: Option<nat>, primaryVram: nat, vrams: seq<nat>, tpCompatible: bool)

  /** One reading of the machine and the file: floored live free VRAM, GGUF size,
      layer count, and the KV + compute + CUDA extra of a 4096-token window. */
  datatype Reading = Reading(liveFree: Option<nat>, weight: Option<real>, nLayer: Option<nat>, extra: real)

  datatype Candidate = Candidate(tier: Tier, layers: nat)

  const ALL_LAYERS: nat := 999

  predicate IsCpuTier(l: Tier) { l.CpuMetal? || l.CpuLabel? }

  // ---- layer arithmetic ----

  /** Leftover MiB over 300 MiB a layer, rounded half up. */
  function OffloadLayerBudget(vram: nat): nat
  {
    if vram * 1024 - 768 < 300 then 0 else (2 * (vram * 1024 - 768) + 300) / 600
  }

  function EstimatedNLayer(weight: real): nat
    requires weight >= 0.0
  {
    if weight <= 0.05 then 1 else Max((weight / 0.5 + 0.5).Floor, 1)
  }

  predicate Known(weight: Option<real>) { weight.Some? && weight.value > 0.05 }

  function LayerCount(weight: real, nLayer: Option<nat>): (n: nat)
    requires weight >= 0.0
    ensures n >= 1
  {
    if nLayer.Some? && nLayer.value > 0 then nLayer.value else Max(EstimatedNLayer(weight), 1)
  }

  function PerLayer(weight: real, nLayer: Option<nat>): (per: real)
    requires weight >= 0.0
  {
    weight / LayerCount(weight, nLayer) as real
  }

  /** VRAM left for weights once the extra is paid. */
  function ForWeights(available: nat, extra: real): real
  {
    if available as real - extra > 0.0 then available as real - extra else 0.0
  }

  function MinUseful(weight: real): real
  {
    if weight * 0.25 < 0.75 then 0.75 else if weight * 0.25 > 2.0 then 2.0 else weight * 0.25
  }

  function OffloadLayers(available: nat, weight: Option<real>, nLayer: Option<nat>, extra: real): nat
  {
    var guess := OffloadLayerBudget(available);
    if !Known(weight) then guess
    else
      var w := weight.value;
      var room := ForWeights(available, extra);
      if room < 0.01 || guess == 0 then 0
      else if room + 0.005 < MinUseful(w) then 0
      else
        var per := PerLayer(w, nLayer);
        Min(if per > 0.01 then FloorNat(room / per) else guess, guess)
  }

  function FloorNat(x: real): nat
  {
    if x < 0.0 then 0 else x.Floor
  }

  // ---- the list ----

  function FullPlacementVram(p: Pool): nat
  {
    match p.strategy
    case Single => Max(p.primaryVram, p.totalVram)
    case CpuOnly => 0
    case _ => p.totalVram
  }

  function Available(p: Pool, r: Reading): nat
  {
    var advertised := FullPlacementVram(p);
    if r.liveFree.Some? then Min(advertised, r.liveFree.value) else advertised
  }

  predicate GpuFullFits(available: nat, r: Reading)
  {
    Known(r.weight) && Max(available, 1) as real + 0.005 >= r.weight.value + r.extra
  }

  predicate SingleGpuFull(p: Pool, r: Reading)
  {
    Known(r.weight) && Max(p.primaryVram, 1) as real + 0.005 >= r.weight.value + r.extra
  }

  predicate TensorParallelFull(p: Pool, r: Reading)
  {
    && |p.cudaIds| >= 2 && p.tpCompatible && Known(r.weight) && !SingleGpuFull(p, r)
    && |p.vrams| == |p.cudaIds|
    && (forall v :: v in p.vrams ==> v as real + 0.05 >= r.weight.value / |p.vrams| as real + 2.0)
    && Sum(p.vrams) as real + 0.05 >= r.weight.value + 2.0
  }

  predicate OffersFull(p: Pool, r: Reading)
  {
    match p.strategy
    case CpuOnly => false
    case TensorParallel =>
      && GpuFullFits(Available(p, r), r)
      && if SingleGpuFull(p, r) then p.primary.Some? else TensorParallelFull(p, r)
    case _ => GpuFullFits(Available(p, r), r)
  }

  function Budget(p: Pool, r: Reading): nat
  {
    Min(OffloadLayers(Available(p, r), r.weight, r.nLayer, r.extra), p.layerBudget)
  }

  function Offloads(p: Pool, budget: nat): seq<Candidate>
  {
    if budget < 1 || budget >= ALL_LAYERS || p.strategy.CpuOnly? then []
    else if (p.strategy.Single? || p.strategy.TensorParallel?) && p.primary.None? then []
    else
      var reduced := Max(budget / 2, 1);
      [Candidate(GpuOffload, budget)] + if reduced < budget then [Candidate(GpuOffloadReduced, reduced)] else []
  }

  function GpuCandidates(p: Pool, r: Reading): seq<Candidate>
  {
    (if OffersFull(p, r) then [Candidate(GpuFull, ALL_LAYERS)] else []) + Offloads(p, Budget(p, r))
  }

  /** The list, or nothing for `insufficient_vram`. */
  function Candidates(p: Pool, metalUnreliable: bool, r: Reading): seq<Candidate>
  {
    if p.strategy.CpuOnly? then [Candidate(CpuLabel, 0)]
    else if p.strategy.Metal? && metalUnreliable then [Candidate(CpuMetal, 0)]
    else
      GpuCandidates(p, r) + (if p.strategy.Metal? then [Candidate(CpuMetal, 0)] else [])
  }

  method PushFull(p: Pool, r: Reading, available: nat) returns (candidates: seq<Candidate>)
    requires available == Available(p, r) && !p.strategy.CpuOnly?
    ensures candidates == if OffersFull(p, r) then [Candidate(GpuFull, ALL_LAYERS)] else []
  {
    candidates := [];
    if p.strategy.TensorParallel? {
      if GpuFullFits(available, r) && SingleGpuFull(p, r) {
        if p.primary.Some? {
          candidates := [Candidate(GpuFull, ALL_LAYERS)];
        }
      } else if GpuFullFits(available, r) && TensorParallelFull(p, r) {
        candidates := [Candidate(GpuFull, ALL_LAYERS)];
      }
    } else if GpuFullFits(available, r) {
      candidates := [Candidate(GpuFull, ALL_LAYERS)];
    }
  }

  method PushOffloads(before: seq<Candidate>, p: Pool, budget: nat) returns (candidates: seq<Candidate>)
    requires !p.strategy.CpuOnly?
    ensures candidates == before + Offloads(p, budget)
  {
    candidates := before;
    if 1 <= budget < ALL_LAYERS && (p.strategy.Vulkan? || p.strategy.Metal? || p.primary.Some?) {
      candidates := candidates + [Candidate(GpuOffload, budget)];
      var reduced := Max(budget / 2, 1);
      if reduced < budget {
        candidates := candidates + [Candidate(GpuOffloadReduced, reduced)];
      }
    }
  }

  method PushGpuTiers(p: Pool, r: Reading) returns (candidates: seq<Candidate>)
    requires !p.strategy.CpuOnly?
    ensures candidates == GpuCandidates(p, r) && forall c :: c in candidates ==> Rank(c.tier) <= 2
  {
    var available := Available(p, r);
    candidates := PushFull(p, r, available);
    var budget := Min(OffloadLayers(available, r.weight, r.nLayer, r.extra), p.layerBudget);
    candidates := PushOffloads(candidates, p, budget);
    OffloadsFall(p, budget);
  }

  method LoadParamCandidates(p: Pool, metalUnreliable: bool, r: Reading) returns (result: Option<seq<Candidate>>)
    ensures result == if Candidates(p, metalUnreliable, r) == [] then None else Some(Candidates(p, metalUnreliable, r))
  {
    if p.strategy.CpuOnly? {
      return Some([Candidate(CpuLabel, 0)]);
    }
    if p.strategy.Metal? && metalUnreliable {
      return Some([Candidate(CpuMetal, 0)]);
    }
    var candidates := PushGpuTiers(p, r);
    assert candidates + [] == candidates;
    if p.strategy.Metal? && !(exists c :: c in candidates && c.tier.CpuMetal?) {
      candidates := candidates + [Candidate(CpuMetal, 0)];
    }
    if candidates == [] {
      return None;
    }
    return Some(candidates);
  }

  // ---- the shape of every list ----

  function Rank(l: Tier): nat
  {
    match l
    case GpuFull => 0
    case GpuOffload => 1
    case GpuOffloadReduced => 2
    case CpuMetal => 3
    case CpuLabel => 4
  }

  predicate LadderShape(s: Strategy, metalUnreliable: bool, list: seq<Candidate>)
  {
    && Falls(list)
    && (forall i :: 0 <= i < |list| ==> (list[i].layers == 0 <==> IsCpuTier(list[i].tier)))
    && (s.CpuOnly? ==> list == [Candidate(CpuLabel, 0)])
    && (s.Metal? ==> list != [] && list[|list| - 1].tier.CpuMetal? && (metalUnreliable ==> |list| == 1))
    && (!s.CpuOnly? && !s.Metal? ==> forall i :: 0 <= i < |list| ==> list[i].layers >= 1)
  }

  predicate Falls(list: seq<Candidate>)
  {
    forall i, j :: 0 <= i < j < |list| ==>
      Rank(list[i].tier) < Rank(list[j].tier) && list[i].layers > list[j].layers
  }

  predicate AllAbove(list: seq<Candidate>, c: Candidate)
  {
    forall i :: 0 <= i < |list| ==> Rank(list[i].tier) < Rank(c.tier) && list[i].layers > c.layers
  }

  lemma FallsSnoc(list: seq<Candidate>, c: Candidate)
    requires Falls(list) && AllAbove(list, c)
    ensures Falls(list + [c])
  {
  }

  lemma FallsCons(c: Candidate, list: seq<Candidate>)
    requires Falls(list) && forall i :: 0 <= i < |list| ==> AllAbove([c], list[i])
    ensures Falls([c] + list)
  {
    forall i | 0 <= i < |list|
      ensures Rank(c.tier) < Rank(list[i].tier) && c.layers > list[i].layers
    {
      assert AllAbove([c], list[i]) && [c][0] == c;
    }
  }

  lemma OffloadsFall(p: Pool, budget: nat)
    ensures var off := Offloads(p, budget);
      Falls(off) && forall i :: 0 <= i < |off| ==> 1 <= off[i].layers < ALL_LAYERS && 1 <= Rank(off[i].tier) <= 2
  {
  }

  /** Tiers are distinct and in the fixed order, layer counts strictly fall,
      only CPU tiers load zero layers, and only CPU-only and Metal lists have any. */
  lemma EveryListIsALadder(p: Pool, metalUnreliable: bool, r: Reading)
    ensures LadderShape(p.strategy, metalUnreliable, Candidates(p, metalUnreliable, r))
  {
    if !p.strategy.CpuOnly? && !(p.strategy.Metal? && metalUnreliable) {
      var off := Offloads(p, Budget(p, r));
      OffloadsFall(p, Budget(p, r));
      BuiltListIsALadder(p.strategy, metalUnreliable, OffersFull(p, r), off);
    }
  }

  lemma BuiltListIsALadder(s: Strategy, metalUnreliable: bool, full: bool, off: seq<Candidate>)
    requires Falls(off) && forall i :: 0 <= i < |off| ==> 1 <= off[i].layers < ALL_LAYERS && 1 <= Rank(off[i].tier) <= 2
    requires !s.CpuOnly? && !(s.Metal? && metalUnreliable)
    ensures LadderShape(s, metalUnreliable,
      (if full then [Candidate(GpuFull, ALL_LAYERS)] else []) + off + (if s.Metal? then [Candidate(CpuMetal, 0)] else []))
  {
    var gpu := (if full then [Candidate(GpuFull, ALL_LAYERS)] else []) + off;
    if full { FallsCons(Candidate(GpuFull, ALL_LAYERS), off); } else { assert gpu == off; }
    assert GpuOnly(gpu);
    EndsLadder(s, metalUnreliable, gpu);
  }

  predicate GpuOnly(list: seq<Candidate>)
  {
    forall i :: 0 <= i < |list| ==> list[i].layers >= 1 && Rank(list[i].tier) <= 2
  }

  lemma EndsLadder(s: Strategy, metalUnreliable: bool, gpu: seq<Candidate>)
    requires Falls(gpu) && GpuOnly(gpu) && !s.CpuOnly? && !(s.Metal? && metalUnreliable)
    ensures LadderShape(s, metalUnreliable, gpu + (if s.Metal? then [Candidate(CpuMetal, 0)] else []))
  {
    if s.Metal? { FallsSnoc(gpu, Candidate(CpuMetal, 0)); } else { assert gpu + [] == gpu; }
  }

  // ---- layers against free VRAM ----

  lemma DivideMonotone(x: real, y: real, d: real)
    requires x <= y && d > 0.0
    ensures x / d <= y / d
  {
    assert (y - x) / d >= 0.0;
    assert y / d - x / d == (y - x) / d;
  }

  /** More free VRAM never means fewer offloaded layers. */
  lemma OffloadLayersMonotone(a: nat, b: nat, weight: Option<real>, nLayer: Option<nat>, extra: real)
    requires a <= b
    ensures OffloadLayers(a, weight, nLayer, extra) <= OffloadLayers(b, weight, nLayer, extra)
  {
    if Known(weight) && PerLayer(weight.value, nLayer) > 0.01 {
      DivideMonotone(ForWeights(a, extra), ForWeights(b, extra), PerLayer(weight.value, nLayer));
    }
  }

  function SliceGb(layers: nat, per: real): real { layers as real * per }

  /** The weights of `layers` layers fit in free VRAM minus the extra. */
  predicate SliceFits(available: nat, weight: real, nLayer: Option<nat>, extra: real, layers: nat)
    requires weight >= 0.0
  {
    SliceGb(layers, PerLayer(weight, nLayer)) <= ForWeights(available, extra)
  }

  lemma FloorTimes(room: real, per: real, layers: nat)
    requires room >= 0.0 && per > 0.0 && layers <= FloorNat(room / per)
    ensures SliceGb(layers, per) <= room
  {
    assert layers as real <= room / per;
    assert layers as real * per <= room / per * per;
  }

  lemma PerLayerPositive(weight: real, nLayer: Option<nat>)
    requires weight > 0.0
    ensures PerLayer(weight, nLayer) > 0.0
  {
  }

  lemma TimesLe(a: nat, b: nat, per: real)
    requires a <= b && per >= 0.0
    ensures SliceGb(a, per) <= SliceGb(b, per)
  {
  }

  lemma OffloadLayersBound(available: nat, weight: real, nLayer: Option<nat>, extra: real)
    requires weight > 0.05 && OffloadLayers(available, Some(weight), nLayer, extra) >= 1
    ensures ForWeights(available, extra) + 0.005 >= MinUseful(weight)
    ensures PerLayer(weight, nLayer) > 0.01 ==>
      OffloadLayers(available, Some(weight), nLayer, extra) <= FloorNat(ForWeights(available, extra) / PerLayer(weight, nLayer))
  {
  }

  /** The least free VRAM at which any layer is offloaded. */
  function LeastUseful(weight: real, extra: real): nat
    requires extra >= 0.0
  {
    Max(-((-(extra + MinUseful(weight) - 0.005)).Floor), 2)
  }

  lemma LeastUsefulIsLeast(available: nat, weight: real, nLayer: Option<nat>, extra: real)
    requires weight > 0.05 && extra >= 0.0 && OffloadLayers(available, Some(weight), nLayer, extra) >= 1
    ensures available >= LeastUseful(weight, extra) >= 2
  {
  }

  /** A gigabyte more adds at most four layers of unknown size. */
  lemma {:induction false} BudgetGrowsSlowly(a: nat, b: nat)
    requires 2 <= a <= b
    ensures OffloadLayerBudget(b) <= OffloadLayerBudget(a) + 4 * (b - a)
    decreases b
  {
    if a < b {
      BudgetGrowsSlowly(a, b - 1);
      var x := 2 * ((b - 1) * 1024 - 768) + 300;
      assert (x + 2048) / 600 <= x / 600 + 4;
    }
  }

  /** One reading decides: heavy enough layers, or the light ones offered at the
      least useful reading fit there. */
  predicate LeastReadingFits(weight: real, nLayer: Option<nat>, extra: real)
    requires weight >= 0.0 && extra >= 0.0
  {
    || PerLayer(weight, nLayer) > 0.01
    || (var a := LeastUseful(weight, extra); SliceFits(a, weight, nLayer, extra, Min(OffloadLayerBudget(a), 998)))
  }

  lemma LeastUsefulHasRoom(weight: real, extra: real)
    requires weight > 0.05 && extra >= 0.0
    ensures var a := LeastUseful(weight, extra); ForWeights(a, extra) == a as real - extra >= MinUseful(weight) - 0.005
  {
  }

  lemma SliceGrows(n: nat, d: nat, per: real, room: real)
    requires 0.0 <= per <= 0.01 && SliceGb(n, per) <= room
    ensures SliceGb(n + 4 * d, per) <= room + d as real
  {
    assert SliceGb(n + 4 * d, per) == SliceGb(n, per) + SliceGb(4 * d, per);
    SliceUnder(4 * d, per);
  }

  lemma SliceUnder(n: nat, per: real)
    requires per <= 0.01
    ensures SliceGb(n, per) <= n as real * 0.01
  {
    assert n as real * (0.01 - per) >= 0.0;
  }

  lemma LightSliceFits(available: nat, weight: real, nLayer: Option<nat>, extra: real, layers: nat)
    requires weight > 0.05 && extra >= 0.0 && PerLayer(weight, nLayer) <= 0.01 && LeastReadingFits(weight, nLayer, extra)
    requires 1 <= layers < ALL_LAYERS && layers <= OffloadLayers(available, Some(weight), nLayer, extra)
    ensures SliceFits(available, weight, nLayer, extra, layers)
  {
    var a, per := LeastUseful(weight, extra), PerLayer(weight, nLayer);
    PerLayerPositive(weight, nLayer);
    LeastUsefulIsLeast(available, weight, nLayer, extra);
    LeastUsefulHasRoom(weight, extra);
    GuessBound(available, weight, nLayer, extra);
    BudgetGrowsSlowly(a, available);
    var n := Min(OffloadLayerBudget(a), 998);
    SliceGrows(n, available - a, per, ForWeights(a, extra));
    TimesLe(layers, n + 4 * (available - a), per);
  }

  lemma GuessBound(available: nat, weight: real, nLayer: Option<nat>, extra: real)
    requires weight > 0.05
    ensures OffloadLayers(available, Some(weight), nLayer, extra) <= OffloadLayerBudget(available)
  {
  }

  lemma OffloadSliceFits(available: nat, weight: real, nLayer: Option<nat>, extra: real, layers: nat)
    requires weight > 0.05 && extra >= 0.0 && LeastReadingFits(weight, nLayer, extra)
    requires 1 <= layers < ALL_LAYERS && layers <= OffloadLayers(available, Some(weight), nLayer, extra)
    ensures SliceFits(available, weight, nLayer, extra, layers)
  {
    if PerLayer(weight, nLayer) > 0.01 {
      OffloadLayersBound(available, weight, nLayer, extra);
      FloorTimes(ForWeights(available, extra), PerLayer(weight, nLayer), layers);
    } else {
      LightSliceFits(available, weight, nLayer, extra, layers);
    }
  }

  /** Every layer count on offer fits what live VRAM leaves for weights, at all
      readings, exactly when it does at the one reading of the guard. */
  lemma OffloadTierFitsIff(weight: real, nLayer: Option<nat>, extra: real)
    requires weight > 0.05 && extra >= 0.0
    ensures (forall available: nat, layers: nat ::
        1 <= layers < ALL_LAYERS && layers <= OffloadLayers(available, Some(weight), nLayer, extra) ==>
          SliceFits(available, weight, nLayer, extra, layers))
      <==> LeastReadingFits(weight, nLayer, extra)
  {
    if LeastReadingFits(weight, nLayer, extra) {
      forall available: nat, layers: nat |
        1 <= layers < ALL_LAYERS && layers <= OffloadLayers(available, Some(weight), nLayer, extra)
        ensures SliceFits(available, weight, nLayer, extra, layers)
      {
        OffloadSliceFits(available, weight, nLayer, extra, layers);
      }
    } else {
      var a := LeastUseful(weight, extra);
      assert OffloadLayers(a, Some(weight), nLayer, extra) == OffloadLayerBudget(a) >= 1;
      assert !SliceFits(a, weight, nLayer, extra, Min(OffloadLayerBudget(a), 998));
    }
  }

  // ---- the extra belongs to the file ----

  function Pow4(x: real): real { x * x * (x * x) }

  function Pow20(x: real): real { Pow4(Pow4(x) * x) }

  function Cube(x: real): real { x * x * x }

  function Pow9(x: real): real { Cube(Cube(x)) }

  /** `max(w / 4.7, 0.25)^0.45`, that is, the positive s with s^20 = max(..)^9. */
  predicate IsLayerScale(weight: real, scale: real)
  {
    scale > 0.0 && Pow20(scale) == Pow9(RMax(weight / 4.7, 0.25))
  }

  /** KV, scratch and CUDA overhead of a 4096-token window. */
  function FileExtra(scale: real): real { 0.56 * scale + (0.25 + 36.0 * scale * 2048.0 / 180000.0) + 0.40 }

  lemma TimesMonotone(a: real, b: real, c: real, d: real)
    requires 0.0 <= a <= b && 0.0 <= c <= d
    ensures 0.0 <= a * c <= b * d
  {
    assert a * c <= b * c by { assert (b - a) * c >= 0.0; }
    assert b * c <= b * d by { assert b * (d - c) >= 0.0; }
  }

  lemma Pow4Monotone(x: real, y: real)
    requires 0.0 <= x <= y
    ensures 0.0 <= Pow4(x) <= Pow4(y)
  {
    TimesMonotone(x, y, x, y);
    TimesMonotone(x * x, y * y, x * x, y * y);
  }

  lemma Pow20Monotone(x: real, y: real)
    requires 0.0 <= x <= y
    ensures Pow20(x) <= Pow20(y)
  {
    Pow4Monotone(x, y);
    TimesMonotone(Pow4(x), Pow4(y), x, y);
    Pow4Monotone(Pow4(x) * x, Pow4(y) * y);
  }

  lemma CubeMonotone(x: real, y: real)
    requires 0.0 <= x <= y
    ensures 0.0 <= Cube(x) <= Cube(y)
  {
    TimesMonotone(x, y, x, y);
    TimesMonotone(x * x, y * y, x, y);
  }

  lemma Pow9Monotone(x: real, y: real)
    requires 0.0 <= x <= y
    ensures Pow9(x) <= Pow9(y)
  {
    CubeMonotone(x, y);
    CubeMonotone(Cube(x), Cube(y));
  }

  /** The scale stays below a bound whose twentieth power exceeds the ninth power
      of the weight's. */
  lemma ScaleBelow(weight: real, scale: real, x: real, bound: real)
    requires IsLayerScale(weight, scale) && weight / 4.7 <= x && 0.25 <= x && bound > 0.0 && Pow9(x) < Pow20(bound)
    ensures scale <= bound
  {
    Pow9Monotone(RMax(weight / 4.7, 0.25), x);
    if scale > bound { Pow20Monotone(bound, scale); }
  }

  lemma BigPowers()
    ensures Pow9(8086.0) < Pow20(58.0) && Pow9(2.0) < Pow20(2.0)
  {
    assert Pow4(58.0) == 11316496.0;
    assert Pow4(58.0) * 58.0 == 656356768.0;
    assert Pow4(2.0) * 2.0 == 32.0;
  }

  lemma SmallExtraFits(weight: real, nLayer: Option<nat>, extra: real)
    requires weight > 0.05 && 0.0 <= extra <= (if weight >= 8.0 then 57.0 else 21.6)
    ensures LeastReadingFits(weight, nLayer, extra)
  {
    var a, per := LeastUseful(weight, extra), PerLayer(weight, nLayer);
    var n := Min(OffloadLayerBudget(a), 998);
    if per <= 0.01 {
      SliceUnder(n, per);
      LeastUsefulHasRoom(weight, extra);
      assert n <= OffloadLayerBudget(a) && 600 * OffloadLayerBudget(a) <= 2048 * a - 1236;
      assert n as real * 600.0 <= 2048.0 * a as real - 1236.0;
    }
  }

  /** With the memory plan's own extra, every offload tier of every file up to
      38 TB fits, at all readings and for any number of layers. */
  lemma FileTiersFit(weight: real, nLayer: Option<nat>, scale: real)
    requires 0.05 < weight <= 38000.0 && IsLayerScale(weight, scale)
    ensures FileExtra(scale) >= 0.0 && LeastReadingFits(weight, nLayer, FileExtra(scale))
  {
    BigPowers();
    if weight >= 8.0 {
      ScaleBelow(weight, scale, 8086.0, 58.0);
    } else {
      ScaleBelow(weight, scale, 2.0, 2.0);
    }
    SmallExtraFits(weight, nLayer, FileExtra(scale));
  }

  /** The guard matters only beyond any real file: one of 191 TB in twenty million
      layers overflows. */
  lemma HugeFileOverflows() returns (weight: real, nLayer: nat, scale: real)
    ensures weight > 0.05 && IsLayerScale(weight, scale) && FileExtra(scale) >= 0.0 && nLayer <= U32_MAX
    ensures !LeastReadingFits(weight, Some(nLayer), FileExtra(scale))
  {
    var x := 40642.31406647572522401601;
    weight, nLayer, scale := 4.7 * x, 20_000_000, 118.587876497;
    assert weight / 4.7 == x;
    assert Pow20(scale) == Pow9(x);
    var extra := FileExtra(scale);
    assert LeastUseful(weight, extra) == 118;
    assert OffloadLayerBudget(118) == 400;
    assert PerLayer(weight, Some(nLayer)) == weight / 20000000.0;
  }

  /** So in a list built from live VRAM every offload tier of such a file fits. */
  lemma ListedTiersFit(p: Pool, r: Reading, scale: real, i: nat)
    requires Known(r.weight) && r.weight.value <= 38000.0 && IsLayerScale(r.weight.value, scale) && r.extra == FileExtra(scale)
    requires i < |Candidates(p, false, r)|
    requires Candidates(p, false, r)[i].tier in {GpuOffload, GpuOffloadReduced}
    ensures SliceFits(Available(p, r), r.weight.value, r.nLayer, r.extra, Candidates(p, false, r)[i].layers)
  {
    EveryListIsALadder(p, false, r);
    FileTiersFit(r.weight.value, r.nLayer, scale);
    var c := Candidates(p, false, r)[i];
    assert c in Offloads(p, Budget(p, r));
    OffloadSliceFits(Available(p, r), r.weight.value, r.nLayer, r.extra, c.layers);
  }

  // ---- what a listed full load means ----

  predicate ListsFull(list: seq<Candidate>) { exists i :: 0 <= i < |list| && list[i].tier.GpuFull? }

  /** Weights and extra fit the free VRAM the list was built from; on a tensor-
      parallel pool the largest card takes them all, or else every card has room
      for its share and its own overhead. */
  ghost predicate FullHasRoom(p: Pool, r: Reading)
  {
    && r.weight.Some? && r.weight.value > 0.05
    && r.weight.value + r.extra <= 0.005 + (if Available(p, r) == 0 then 1 else Available(p, r)) as real
    && (p.strategy.TensorParallel? ==>
      if r.weight.value + r.extra <= 0.005 + (if p.primaryVram == 0 then 1 else p.primaryVram) as real then p.primary.Some?
      else
        && p.tpCompatible && |p.vrams| == |p.cudaIds| >= 2
        && (forall i :: 0 <= i < |p.vrams| ==> r.weight.value / |p.vrams| as real + 2.0 <= p.vrams[i] as real + 0.05)
        && r.weight.value + 2.0 <= Sum(p.vrams) as real + 0.05)
  }

  /** A full load is listed exactly where it has room. */
  lemma FullTierHasRoom(p: Pool, metalUnreliable: bool, r: Reading)
    requires !p.strategy.CpuOnly? && !(p.strategy.Metal? && metalUnreliable)
    ensures ListsFull(Candidates(p, metalUnreliable, r)) <==> FullHasRoom(p, r)
  {
    OffloadsFall(p, Budget(p, r));
    var list := Candidates(p, metalUnreliable, r);
    if OffersFull(p, r) { assert list[0].tier.GpuFull?; }
    assert ListsFull(list) <==> OffersFull(p, r);
    if p.strategy.TensorParallel? && |p.vrams| > 0 && r.weight.Some? { SharesFit(p, r); }
  }

  lemma SharesFit(p: Pool, r: Reading)
    requires |p.vrams| > 0 && r.weight.Some?
    ensures (forall v :: v in p.vrams ==> v as real + 0.05 >= r.weight.value / |p.vrams| as real + 2.0) <==>
      (forall i :: 0 <= i < |p.vrams| ==> r.weight.value / |p.vrams| as real + 2.0 <= p.vrams[i] as real + 0.05)
  {
    if forall v :: v in p.vrams ==> v as real + 0.05 >= r.weight.value / |p.vrams| as real + 2.0 {
      forall i | 0 <= i < |p.vrams| ensures r.weight.value / |p.vrams| as real + 2.0 <= p.vrams[i] as real + 0.05 {
        assert p.vrams[i] in p.vrams;
      }
    }
  }

  // ---- what a listed offload means ----

  /** The free VRAM of a list: the pool's own, cut to what is free now. */
  lemma AvailableMeans(p: Pool, r: Reading)
    requires !p.strategy.CpuOnly?
    ensures var own := if p.strategy.Single? && p.primaryVram > p.totalVram then p.primaryVram else p.totalVram;
      Available(p, r) == if r.liveFree.Some? && r.liveFree.value < own then r.liveFree.value else own
  {
  }

  /** The backstop is the free VRAM less 768 MiB in layers of 300 MiB, to the
      nearest one, and nothing below one layer. */
  lemma BackstopRounds(vram: nat)
    ensures 1024 * vram < 1068 ==> OffloadLayerBudget(vram) == 0
    ensures 1024 * vram >= 1068 ==>
      600 * OffloadLayerBudget(vram) - 300 <= 2 * (1024 * vram - 768) < 600 * OffloadLayerBudget(vram) + 300
  {
  }

  /** A file without a layer count, or with none, has one layer per half
      gigabyte, to the nearest one, and at least one. */
  lemma EstimatedLayersRound(weight: real)
    requires weight > 0.05
    ensures LayerCount(weight, None) >= 1 && LayerCount(weight, Some(0)) == LayerCount(weight, None)
    ensures forall n: nat :: n > 0 ==> LayerCount(weight, Some(n)) == n
    ensures LayerCount(weight, None) > 1 || weight >= 0.25 ==>
      LayerCount(weight, None) as real - 0.5 <= 2.0 * weight < LayerCount(weight, None) as real + 0.5
  {
    var x := weight / 0.5 + 0.5;
    assert x == 2.0 * weight + 0.5;
    assert x.Floor as real <= x < x.Floor as real + 1.0;
  }

  /** Nothing is offloaded unless what the extra leaves carries a quarter of the
      file, within 0.75 and 2 GB; then as many layers as fit, up to the backstop. */
  lemma OffloadedLayersAreMost(available: nat, weight: real, nLayer: Option<nat>, extra: real)
    requires weight > 0.05
    ensures var n, guess := OffloadLayers(available, Some(weight), nLayer, extra), OffloadLayerBudget(available);
      var room, per := available as real - extra, weight / LayerCount(weight, nLayer) as real;
      var least := if weight < 3.0 then 0.75 else if weight > 8.0 then 2.0 else weight / 4.0;
      && n <= guess
      && (room + 0.005 < least ==> n == 0)
      && (room + 0.005 >= least && per <= 0.01 ==> n == guess)
      && (room + 0.005 >= least && per > 0.01 && n < guess ==> SliceGb(n, per) <= room < SliceGb(n + 1, per))
  {
    var room, per := available as real - extra, weight / LayerCount(weight, nLayer) as real;
    var n, guess := OffloadLayers(available, Some(weight), nLayer, extra), OffloadLayerBudget(available);
    assert PerLayer(weight, nLayer) == per && Known(Some(weight));
    if room >= 0.01 && guess > 0 && room + 0.005 >= MinUseful(weight) {
      assert n == Min(if per > 0.01 then FloorNat(room / per) else guess, guess);
      if per > 0.01 { FloorBrackets(room, per); }
    }
  }

  function Product(a: real, b: real): real { a * b }

  lemma ProductGrows(a: real, b: real, per: real)
    requires a <= b && per > 0.0
    ensures Product(a, per) <= Product(b, per) && (a < b ==> Product(a, per) < Product(b, per))
  {
    if a < b { assert (b - a) * per > 0.0; }
  }

  lemma FloorBrackets(room: real, per: real)
    requires per > 0.0 && room >= 0.0
    ensures SliceGb(FloorNat(room / per), per) <= room < SliceGb(FloorNat(room / per) + 1, per)
  {
    var q, n := room / per, FloorNat(room / per);
    assert q >= 0.0 && n == q.Floor && Product(q, per) == room;
    ProductGrows(n as real, q, per);
    ProductGrows(q, (n + 1) as real, per);
    assert SliceGb(n, per) == Product(n as real, per) && SliceGb(n + 1, per) == Product((n + 1) as real, per);
  }

  /** The offload tiers of a list, exactly: all the layers that fit, up to the
      pool's budget, and where that is two or more then half of them. */
  lemma OffloadTiersExactly(p: Pool, metalUnreliable: bool, r: Reading)
    requires !p.strategy.CpuOnly? && !(p.strategy.Metal? && metalUnreliable)
    ensures var fit := OffloadLayers(Available(p, r), r.weight, r.nLayer, r.extra);
      var n := if fit < p.layerBudget then fit else p.layerBudget;
      var offered := 1 <= n <= 998 && (p.primary.Some? || p.strategy.Vulkan? || p.strategy.Metal?);
      var list := Candidates(p, metalUnreliable, r);
      && ((exists i :: 0 <= i < |list| && list[i].tier == GpuOffload) <==> offered)
      && ((exists i :: 0 <= i < |list| && list[i].tier == GpuOffloadReduced) <==> offered && n >= 2)
      && forall i :: 0 <= i < |list| ==>
        && (list[i].tier == GpuFull ==> list[i].layers == 999)
        && (list[i].tier == GpuOffload ==> list[i].layers == n)
        && (list[i].tier == GpuOffloadReduced ==> n - 1 <= 2 * list[i].layers <= n)
  {
    var list, full := Candidates(p, metalUnreliable, r), if OffersFull(p, r) then 1 else 0;
    var off := Offloads(p, Budget(p, r));
    assert forall i :: 0 <= i < |off| ==> list[full + i] == off[i];
    if |off| > 0 { assert list[full] == off[0]; }
    if |off| > 1 { assert list[full + 1] == off[1]; }
  }

  // ---- when a larger card keeps its placements ----

  /** The same pool on a larger card, read at the same moment. */
  predicate Larger(p: Pool, q: Pool)
  {
    && q == p.(totalVram := q.totalVram, primaryVram := q.primaryVram, layerBudget := q.layerBudget)
    && p.totalVram <= q.totalVram && p.primaryVram <= q.primaryVram && p.layerBudget <= q.layerBudget
  }

  /** 294 free gigabytes and more stand for 999 layers of unknown size. */
  lemma BudgetCoversAllLayersIff(vram: nat)
    ensures OffloadLayerBudget(vram) >= ALL_LAYERS <==> vram >= 294
  {
  }

  /** A larger card keeps a placement for a file of unknown weight exactly when
      its free VRAM stays below 294 GB or its layer budget below 999. */
  lemma LargerCardKeepsPlacementIff(p: Pool, q: Pool, r: Reading)
    requires !Known(r.weight) && !p.strategy.CpuOnly? && !p.strategy.Metal? && Larger(p, q)
    requires Candidates(p, false, r) != []
    ensures Candidates(q, false, r) != [] <==> Available(q, r) < 294 || q.layerBudget < ALL_LAYERS
  {
    BudgetCoversAllLayersIff(Available(q, r));
  }

  /** Once the free VRAM holds `layers` layers and that is all of them, the whole
      file fits. */
  lemma AllLayersAreTheFile(available: nat, weight: real, nLayer: Option<nat>, extra: real, layers: nat)
    requires weight > 0.05 && extra >= 0.0 && LayerCount(weight, nLayer) <= layers
    requires SliceFits(available, weight, nLayer, extra, layers)
    ensures weight + extra <= available as real
  {
    var n := LayerCount(weight, nLayer);
    PerLayerPositive(weight, nLayer);
    TimesLe(n, layers, PerLayer(weight, nLayer));
    assert SliceGb(n, PerLayer(weight, nLayer)) == weight;
  }

  /** A full load on offer stays on offer on a larger card. */
  lemma FullStaysOffered(p: Pool, q: Pool, r: Reading)
    requires Larger(p, q) && (p.strategy.TensorParallel? ==> p.primary.Some?) && OffersFull(p, r)
    ensures OffersFull(q, r)
  {
  }

  /** For a known weight a larger card keeps a placement exactly when the whole
      file is on offer there or the layer budget stays below 999. */
  lemma LargerCardKeepsKnownPlacementIff(p: Pool, q: Pool, r: Reading)
    requires Known(r.weight) && !p.strategy.CpuOnly? && !p.strategy.Metal? && Larger(p, q)
    requires p.strategy.TensorParallel? ==> p.primary.Some?
    requires Candidates(p, false, r) != []
    ensures Candidates(q, false, r) != [] <==> OffersFull(q, r) || Budget(q, r) < ALL_LAYERS
  {
    OffloadLayersMonotone(Available(p, r), Available(q, r), r.weight, r.nLayer, r.extra);
    if OffersFull(p, r) { FullStaysOffered(p, q, r); }
  }

  /** On a single, Vulkan or Metal card that holds for every file with layers
      above 0.01 GB and at most 999 of them. */
  lemma LargerCardKeepsKnownPlacement(p: Pool, q: Pool, r: Reading)
    requires Known(r.weight) && r.extra >= 0.0 && !p.strategy.CpuOnly? && !p.strategy.TensorParallel? && Larger(p, q)
    requires LayerCount(r.weight.value, r.nLayer) <= ALL_LAYERS && PerLayer(r.weight.value, r.nLayer) > 0.01
    requires Candidates(p, false, r) != []
    ensures Candidates(q, false, r) != []
  {
    var w := r.weight.value;
    if !p.strategy.Metal? { LargerCardKeepsKnownPlacementIff(p, q, r); }
    if Budget(q, r) >= ALL_LAYERS {
      OffloadLayersBound(Available(q, r), w, r.nLayer, r.extra);
      FloorTimes(ForWeights(Available(q, r), r.extra), PerLayer(w, r.nLayer), ALL_LAYERS);
      AllLayersAreTheFile(Available(q, r), w, r.nLayer, r.extra, ALL_LAYERS);
      assert OffersFull(q, r);
    }
  }

  /** A file of 4000 layers and some 408 GB has a placement on a 100 GB card and
      none on a 300 GB one. */
  lemma ManyLayersCanLosePlacement() returns (p: Pool, q: Pool, r: Reading, scale: real)
    ensures Known(r.weight) && IsLayerScale(r.weight.value, scale) && r.extra == FileExtra(scale)
    ensures Larger(p, q) && p.strategy.Vulkan? && p.layerBudget == OffloadLayerBudget(p.totalVram)
    ensures q.layerBudget == OffloadLayerBudget(q.totalVram) && Candidates(p, false, r) != [] && Candidates(q, false, r) == []
  {
    var x := 86.7361737988403547205962240695953369140625;
    var weight := 4.7 * x;
    scale := 7.450580596923828125;
    r := Reading(None, Some(weight), Some(4000), FileExtra(scale));
    p := Pool(Vulkan, 100, OffloadLayerBudget(100), [], None, 0, [], false);
    q := p.(totalVram := 300, layerBudget := OffloadLayerBudget(300));
    assert weight / 4.7 == x && Pow20(scale) == Pow9(x);
    assert PerLayer(weight, Some(4000)) == weight / 4000.0;
    assert 0.1 < PerLayer(weight, Some(4000)) < 0.11;
    assert OffloadLayerBudget(100) == 339 && OffloadLayerBudget(300) == 1021;
    assert ForWeights(300, r.extra) / PerLayer(weight, Some(4000)) >= 1021.0;
    assert ForWeights(100, r.extra) / PerLayer(weight, Some(4000)) >= 339.0;
    assert Budget(q, r) == 1021 && Budget(p, r) == 339;
  }

  /** A larger card can lose every placement: with the weight unknown, a budget
      of 999 layers or more drops the offload tiers and nothing replaces them. */
  lemma LargerCardCanLosePlacement()
    ensures exists p: Pool, r: Reading ::
      Candidates(p, false, r) != [] && Candidates(p.(totalVram := 300, layerBudget := OffloadLayerBudget(300)), false, r) == []
      && p.totalVram < 300 && p.layerBudget == OffloadLayerBudget(p.totalVram)
  {
    var p := Pool(Vulkan, 24, OffloadLayerBudget(24), [], None, 0, [], false);
    var r := Reading(None, None, None, 0.0);
    var big := p.(totalVram := 300, layerBudget := OffloadLayerBudget(300));
    assert Budget(big, r) == 1021;
    assert Candidates(big, false, r) == [];
    assert Candidates(p, false, r) != [];
  }
}
