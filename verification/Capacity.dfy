/** Hosting arithmetic: which cards may host a model, and what system RAM the
    accepted placement then reserves. Gigabytes are reals, whole counts U32. */
module Capacity {
  import opened Base
  import Gguf
  import Ladder

  /** The catalog row's numbers and what the disk says about the weights.
      `layerScale` stands for the power law of the weight, which is positive. */
  datatype Model = Model(
    imageJob: bool, visionModel: bool, maxContextTokens: U32,
    weightSize: Option<real>, minVram: Option<real>, minRam: Option<real>,
    kvCache: Option<real>, gpuFull: Option<real>, gpuWeights: Option<real>,
    diskWeight: Option<real>, shape: Option<Gguf.Shape>, layerScale: real)

  /** `imageEligible` folds the device-vendor test and the Metal image runtime. */
  datatype Card = Card(strategy: Strategy, totalVram: U32, imageEligible: bool)

  predicate NumbersOk(m: Model)
  {
    m.layerScale > 0.0 && (m.diskWeight.Some? ==> m.diskWeight.value >= 0.0)
  }

  // ---- rounding and filtering ----

  function Ceil(x: real): (n: int)
    ensures x <= n as real < x + 1.0
  {
    -((-x).Floor)
  }

  function GbCeil(v: Option<real>): (n: U32)
    ensures v.None? || v.value <= 0.0 ==> n == 0
    ensures v.Some? && v.value > 0.0 ==> n > 0 && (n < U32_MAX ==> v.value <= n as real < v.value + 1.0)
  {
    if v.None? || v.value <= 0.0 then 0 else Min(Ceil(v.value), U32_MAX)
  }

  function SatAdd(a: U32, b: U32): U32 { Min(a + b, U32_MAX) }

  function Above(v: Option<real>, floor: real): Option<real>
  {
    if v.Some? && v.value > floor then v else None
  }

  function Or(v: Option<real>, other: real): real { if v.Some? then v.value else other }

  lemma GbCeilMonotone(x: real, y: real)
    requires x <= y
    ensures GbCeil(Some(x)) <= GbCeil(Some(y))
    ensures y <= x + 0.005 ==> GbCeil(Some(y)) <= GbCeil(Some(x)) + 1
  {
    if 0.0 < x {
      assert Ceil(x) as real < x + 1.0 <= Ceil(y) as real + 1.0;
    }
  }

  // ---- the memory plan ----

  function HeadDim(s: Gguf.Shape): nat { if s.nHead == 0 then 128 else s.nEmbd / s.nHead }

  function Times(rate: real, count: nat): real { rate * count as real }

  /** The number multiplied by the window. */
  function KvPerToken(m: Model): real
  {
    if m.shape.Some? && Gguf.Usable(m.shape.value) then
      var s := m.shape.value;
      (4 * s.nLayer * Max(s.nHeadKv, 1) * Max(HeadDim(s), 1)) as real / 1073741824.0
    else
      0.56 * m.layerScale / 4096.0
  }

  function KvGb(m: Model, nCtx: nat): real { Times(KvPerToken(m), nCtx) }

  function ScratchPerToken(m: Model): real
  {
    if m.shape.Some? && Gguf.Usable(m.shape.value) then m.shape.value.nLayer as real / 180000.0
    else 36.0 * m.layerScale / 180000.0
  }

  function Batch(nCtx: nat): nat { Min(Max(nCtx, 1), 2048) }

  function ExtrasWithoutKv(m: Model, nCtx: nat): real
  {
    0.25 + Times(ScratchPerToken(m), Batch(nCtx)) + 0.40
  }

  lemma RatesNonNegative(m: Model)
    requires NumbersOk(m)
    ensures KvPerToken(m) >= 0.0 && ScratchPerToken(m) >= 0.0
  {
    if m.shape.Some? && Gguf.Usable(m.shape.value) {
      var s := m.shape.value;
      var a := 4 * s.nLayer * Max(s.nHeadKv, 1);
      assert a >= 0 && a * Max(HeadDim(s), 1) >= 0;
    }
  }

  lemma PlanGrows(m: Model, n: nat, n': nat)
    requires NumbersOk(m) && n <= n'
    ensures 0.0 <= KvGb(m, n) <= KvGb(m, n') && 0.65 <= ExtrasWithoutKv(m, n) <= ExtrasWithoutKv(m, n')
  {
    RatesNonNegative(m);
    Scales(KvPerToken(m), n, n');
    Scales(ScratchPerToken(m), Batch(n), Batch(n'));
  }

  lemma Scales(rate: real, n: nat, n': nat)
    requires rate >= 0.0 && n <= n'
    ensures 0.0 <= Times(rate, n) <= Times(rate, n')
  {
    assert rate * (n' - n) as real >= 0.0;
    assert (n' - n) as real == n' as real - n as real;
  }

  function JobNCtx(m: Model): nat
  {
    if m.imageJob then 0
    else if m.maxContextTokens > 0 then m.maxContextTokens
    else if m.visionModel then 8192 else 4096
  }

  function EffectiveNCtx(m: Model, override: U32): nat
  {
    var catalog := Max(JobNCtx(m), 1);
    if override > 0 then Max(Min(override, catalog), 512) else catalog
  }

  function Weight(m: Model): real { Or(Above(m.weightSize, 0.05), Or(m.diskWeight, 0.0)) }

  function FullNeed(m: Model, override: U32): real
  {
    if override == 0 && Above(m.gpuFull, 0.0).Some? then RMax(m.gpuFull.value, GbCeil(m.minVram) as real)
    else
      var n := EffectiveNCtx(m, override);
      RMax(Weight(m) + KvGb(m, n) + ExtrasWithoutKv(m, n), if override == 0 then GbCeil(m.minVram) as real else 0.0)
  }

  function WeightsNeed(m: Model, override: U32): real
  {
    if override == 0 && Above(m.gpuWeights, 0.0).Some? then m.gpuWeights.value
    else RMax(Weight(m), 0.0) + ExtrasWithoutKv(m, EffectiveNCtx(m, override))
  }

  /** At the catalog window, which is the only one the callers ask for. */
  function JobKv(m: Model): real { Or(Above(m.kvCache, 0.0), KvGb(m, EffectiveNCtx(m, 0))) }

  function KvRamNeed(m: Model, headroom: U32): U32
  {
    Max(Max(SatAdd(GbCeil(Some(JobKv(m))), headroom), GbCeil(m.minRam)), 1)
  }

  function WeightPlusKvRamNeed(m: Model, headroom: U32): U32
  {
    Max(SatAdd(GbCeil(Some(Weight(m) + JobKv(m))), headroom), GbCeil(m.minRam))
  }

  function Spilled(m: Model, vram: U32, override: U32): real { RMax(WeightsNeed(m, override) - vram as real, 0.0) }

  predicate KvFitsOnGpu(vram: U32, m: Model, override: U32) { vram as real + 0.005 >= FullNeed(m, override) }

  // ---- the two decisions ----

  predicate LayerOffloadFits(vram: U32, m: Model, ram: U32, headroom: U32, override: U32)
  {
    && vram > 0 && WeightsNeed(m, override) > 0.0
    && vram as real + 0.005 >= Or(Above(m.weightSize, 0.05), WeightsNeed(m, override)) * 0.65
    && ram >= Max(SatAdd(GbCeil(Some(Spilled(m, vram, override) + JobKv(m))), headroom), GbCeil(m.minRam))
  }

  predicate CanHostImage(m: Model, card: Card)
  {
    && !card.strategy.TensorParallel? && !card.strategy.CpuOnly? && card.imageEligible
    && (GbCeil(m.minVram) == 0 || card.totalVram >= GbCeil(m.minVram))
  }

  predicate CanHostAt(m: Model, card: Card, ram: U32, headroom: U32, override: U32)
  {
    if m.imageJob then CanHostImage(m, card)
    else if card.strategy.Metal? then
      Max(card.totalVram, ram) as real + 0.005 >= RMax(FullNeed(m, override), GbCeil(m.minRam) as real)
    else if KvFitsOnGpu(card.totalVram, m, override) && ram >= GbCeil(m.minRam) then true
    else if !card.strategy.CpuOnly? && card.totalVram as real + 0.005 >= WeightsNeed(m, override) then
      ram >= KvRamNeed(m, headroom)
    else if !card.strategy.CpuOnly? && LayerOffloadFits(card.totalVram, m, ram, headroom, override) then true
    else card.strategy.CpuOnly? && ram >= WeightPlusKvRamNeed(m, headroom)
  }

  function PlacementSysRamNeed(m: Model, card: Card, headroom: U32): U32
  {
    if m.imageJob then 0
    else match card.strategy
      case CpuOnly => WeightPlusKvRamNeed(m, headroom)
      case Metal => 0
      case _ =>
        var kvRam := if KvFitsOnGpu(card.totalVram, m, 0) then 0.0 else JobKv(m);
        var need := Spilled(m, card.totalVram, 0) + kvRam;
        if need <= 0.05 then 0 else Max(SatAdd(GbCeil(Some(need)), headroom), 1)
  }

  // ---- more resources never lose a placement ----

  lemma JobKvNonNegative(m: Model)
    requires NumbersOk(m)
    ensures JobKv(m) >= 0.0 && Weight(m) >= 0.0
  {
    PlanGrows(m, EffectiveNCtx(m, 0), EffectiveNCtx(m, 0));
  }

  /** What layer offload asked of RAM covers what weights-on-GPU would ask. */
  lemma OffloadRamCoversKvRam(m: Model, vram: U32, ram: U32, headroom: U32, override: U32)
    requires NumbersOk(m) && LayerOffloadFits(vram, m, ram, headroom, override)
    requires vram as real + 0.005 < WeightsNeed(m, override)
    ensures ram >= KvRamNeed(m, headroom)
  {
    JobKvNonNegative(m);
    GbCeilMonotone(JobKv(m), Spilled(m, vram, override) + JobKv(m));
  }

  lemma LessHeadroomIsLess(m: Model, headroom: U32, headroom': U32)
    requires headroom' <= headroom
    ensures KvRamNeed(m, headroom') <= KvRamNeed(m, headroom)
    ensures WeightPlusKvRamNeed(m, headroom') <= WeightPlusKvRamNeed(m, headroom)
  {
  }

  /** Layer offload, once accepted, stays accepted on a larger card. */
  lemma OffloadIsMonotone(m: Model, vram: U32, vram': U32, ram: U32, ram': U32, headroom: U32, headroom': U32,
                          override: U32, override': U32)
    requires NumbersOk(m) && LayerOffloadFits(vram, m, ram, headroom, override)
    requires vram <= vram' && ram <= ram' && headroom' <= headroom
    requires WeightsNeed(m, override') <= WeightsNeed(m, override)
    ensures LayerOffloadFits(vram', m, ram', headroom', override')
  {
    WeightsNeedPositive(m, override');
    GbCeilMonotone(Spilled(m, vram', override') + JobKv(m), Spilled(m, vram, override) + JobKv(m));
  }

  /** Growing the card, growing the RAM, shrinking the headroom or shortening a
      job window keeps every acceptance, whichever branch then decides. */
  lemma HostingIsMonotone(m: Model, card: Card, card': Card, ram: U32, ram': U32, headroom: U32, headroom': U32,
                          override: U32, override': U32)
    requires NumbersOk(m) && CanHostAt(m, card, ram, headroom, override)
    requires card'.strategy == card.strategy && card'.imageEligible == card.imageEligible
    requires card.totalVram <= card'.totalVram && ram <= ram' && headroom' <= headroom
    requires override' == override || 0 < override' <= override
    ensures CanHostAt(m, card', ram', headroom', override')
  {
    if !m.imageJob {
      ShorterWindowNeedsLess(m, override, override');
      LessHeadroomIsLess(m, headroom, headroom');
      if card.strategy.Metal? || card.strategy.CpuOnly? || KvFitsOnGpu(card.totalVram, m, override) {
      } else if card.totalVram as real + 0.005 < WeightsNeed(m, override) {
        OffloadRamCoversKvRam(m, card.totalVram, ram, headroom, override);
        OffloadIsMonotone(m, card.totalVram, card'.totalVram, ram, ram', headroom, headroom', override, override');
      }
    }
  }

  lemma WeightsNeedPositive(m: Model, override: U32)
    requires NumbersOk(m)
    ensures WeightsNeed(m, override) > 0.0
  {
    PlanGrows(m, EffectiveNCtx(m, override), EffectiveNCtx(m, override));
  }

  lemma ShorterWindowNeedsLess(m: Model, override: U32, override': U32)
    requires NumbersOk(m) && (override' == override || 0 < override' <= override)
    ensures FullNeed(m, override') <= FullNeed(m, override) && WeightsNeed(m, override') <= WeightsNeed(m, override)
  {
    if override' != override {
      PlanGrows(m, EffectiveNCtx(m, override'), EffectiveNCtx(m, override));
    }
  }

  // ---- what an acceptance and a reservation mean ----

  /** RAM holds so many gigabytes and the headroom; the largest count passes for
      any amount. */
  ghost predicate RamHolds(ram: U32, gb: real, headroom: U32)
  {
    ram == 0xFFFF_FFFF || (if gb > 0.0 then gb else 0.0) + headroom as real <= ram as real
  }

  ghost predicate RamFloor(m: Model, ram: U32)
  {
    ram == 0xFFFF_FFFF || m.minRam.None? || m.minRam.value <= ram as real
  }

  lemma RamHoldsIff(ram: U32, gb: real, headroom: U32)
    ensures SatAdd(GbCeil(Some(gb)), headroom) <= ram <==> RamHolds(ram, gb, headroom)
  {
    if gb > 0.0 && ram < U32_MAX {
      if gb + headroom as real <= ram as real {
        assert Ceil(gb) as real < gb + 1.0 <= (ram - headroom) as real + 1.0;
      }
    }
  }

  lemma RamFloorIff(m: Model, ram: U32)
    ensures GbCeil(m.minRam) <= ram <==> RamFloor(m, ram)
  {
    if m.minRam.Some? { RamHoldsIff(ram, m.minRam.value, 0); }
  }

  /** The weights a card must carry most of: the catalog's file size, or what
      loading them needs. */
  ghost function FileWeight(m: Model, override: U32): real
  {
    if m.weightSize.Some? && m.weightSize.value > 0.05 then m.weightSize.value else WeightsNeed(m, override)
  }

  /** A text job's memory on this machine, to half a hundredth of a gigabyte: on
      a discrete card everything, or the weights with the KV cache in RAM, or at
      least 65% of the file with the rest of the weights and the KV cache in RAM;
      on a CPU slot weights and KV in RAM; in unified memory everything in the
      pool. The catalog's minimum RAM comes on top. */
  ghost predicate HasRoom(m: Model, card: Card, ram: U32, headroom: U32, override: U32)
  {
    var v := card.totalVram as real + 0.005;
    match card.strategy
    case Metal =>
      (v >= FullNeed(m, override) || ram as real + 0.005 >= FullNeed(m, override))
      && (RamFloor(m, card.totalVram) || RamFloor(m, ram))
    case CpuOnly => RamFloor(m, ram) && (v >= FullNeed(m, override) || RamHolds(ram, Weight(m) + JobKv(m), headroom))
    case _ =>
      && RamFloor(m, ram)
      && (v >= FullNeed(m, override)
          || (v >= WeightsNeed(m, override) && ram >= 1 && RamHolds(ram, JobKv(m), headroom))
          || (v < WeightsNeed(m, override) && card.totalVram > 0 && v >= 0.65 * FileWeight(m, override)
              && RamHolds(ram, WeightsNeed(m, override) - card.totalVram as real + JobKv(m), headroom)))
  }

  /** A text job is accepted exactly where it has its memory. */
  lemma HostedIffHasRoom(m: Model, card: Card, ram: U32, headroom: U32, override: U32)
    requires NumbersOk(m) && !m.imageJob
    ensures CanHostAt(m, card, ram, headroom, override) <==> HasRoom(m, card, ram, headroom, override)
  {
    RamFloorIff(m, ram);
    if card.strategy.Metal? {
      RamFloorIff(m, card.totalVram);
    } else if card.strategy.CpuOnly? {
      RamHoldsIff(ram, Weight(m) + JobKv(m), headroom);
    } else {
      DiscreteHostedIff(m, card, ram, headroom, override);
    }
  }

  lemma DiscreteHostedIff(m: Model, card: Card, ram: U32, headroom: U32, override: U32)
    requires NumbersOk(m) && !m.imageJob && !card.strategy.Metal? && !card.strategy.CpuOnly?
    ensures CanHostAt(m, card, ram, headroom, override) <==> HasRoom(m, card, ram, headroom, override)
  {
    RamFloorIff(m, ram);
    if KvFitsOnGpu(card.totalVram, m, override) && ram >= GbCeil(m.minRam) {
    } else if card.totalVram as real + 0.005 >= WeightsNeed(m, override) {
      RamHoldsIff(ram, JobKv(m), headroom);
    } else {
      OffloadFitsIff(m, card.totalVram, ram, headroom, override);
    }
  }

  lemma OffloadFitsIff(m: Model, vram: U32, ram: U32, headroom: U32, override: U32)
    requires NumbersOk(m) && vram as real + 0.005 < WeightsNeed(m, override)
    ensures LayerOffloadFits(vram, m, ram, headroom, override) <==>
      && RamFloor(m, ram) && vram > 0 && vram as real + 0.005 >= 0.65 * FileWeight(m, override)
      && RamHolds(ram, WeightsNeed(m, override) - vram as real + JobKv(m), headroom)
  {
    RamFloorIff(m, ram);
    RamHoldsIff(ram, Spilled(m, vram, override) + JobKv(m), headroom);
    assert Spilled(m, vram, override) == WeightsNeed(m, override) - vram as real;
  }

  /** A picture job is accepted exactly on one eligible accelerator with the
      catalog's VRAM, whatever the RAM. */
  lemma ImageHostedIff(m: Model, card: Card, ram: U32, headroom: U32, override: U32)
    requires m.imageJob
    ensures CanHostAt(m, card, ram, headroom, override) <==>
      && card.imageEligible && (card.strategy == Single || card.strategy == Vulkan || card.strategy == Metal)
      && (m.minVram.None? || m.minVram.value <= card.totalVram as real || card.totalVram == 0xFFFF_FFFF)
  {
    if m.minVram.Some? { RamHoldsIff(card.totalVram, m.minVram.value, 0); }
  }

  /** The window: the catalog's, or 4096 and for vision models 8192 tokens; a
      job's own window is cut to that but never below 512. */
  lemma WindowMeans(m: Model, override: U32)
    requires !m.imageJob
    ensures m.maxContextTokens > 0 ==> EffectiveNCtx(m, 0) == m.maxContextTokens
    ensures m.maxContextTokens == 0 ==> EffectiveNCtx(m, 0) == if m.visionModel then 8192 else 4096
    ensures override > 0 && (override < 512 || EffectiveNCtx(m, 0) < 512) ==> EffectiveNCtx(m, override) == 512
    ensures 512 <= override <= EffectiveNCtx(m, 0) ==> EffectiveNCtx(m, override) == override
    ensures override >= EffectiveNCtx(m, 0) >= 512 ==> EffectiveNCtx(m, override) == EffectiveNCtx(m, 0)
  {
  }

  /** Server numbers stand as they are at the catalog window; without them the
      full load is what the weights need and the KV cache of the window. The
      catalog's VRAM floor applies at the catalog window only. */
  lemma NeedsMean(m: Model, override: U32)
    requires NumbersOk(m)
    ensures m.weightSize.Some? && m.weightSize.value > 0.05 ==> Weight(m) == m.weightSize.value
    ensures (m.weightSize.Some? ==> m.weightSize.value <= 0.05) ==>
      Weight(m) == if m.diskWeight.Some? then m.diskWeight.value else 0.0
    ensures m.kvCache.Some? && m.kvCache.value > 0.0 ==> JobKv(m) == m.kvCache.value
    ensures (m.kvCache.Some? ==> m.kvCache.value <= 0.0) && m.maxContextTokens > 0 && !m.imageJob ==>
      JobKv(m) == KvGb(m, m.maxContextTokens)
    ensures override == 0 && m.gpuWeights.Some? && m.gpuWeights.value > 0.0 ==> WeightsNeed(m, override) == m.gpuWeights.value
    ensures override == 0 && m.gpuFull.Some? && m.gpuFull.value > 0.0 ==>
      FullNeed(m, override) == (if m.gpuFull.value >= GbCeil(m.minVram) as real then m.gpuFull.value else GbCeil(m.minVram) as real)
    ensures override > 0 || (Above(m.gpuFull, 0.0).None? && Above(m.gpuWeights, 0.0).None?) ==>
      var full := WeightsNeed(m, override) + KvGb(m, EffectiveNCtx(m, override));
      FullNeed(m, override) == if override > 0 || full >= GbCeil(m.minVram) as real then full else GbCeil(m.minVram) as real
  {
    JobKvNonNegative(m);
    PlanGrows(m, EffectiveNCtx(m, override), EffectiveNCtx(m, override));
  }

  /** The plan by the book: the KV cache of 36 layers of 8 heads of width 128 at
      4096 tokens is 9/16 GB, and without a shape 0.56 GB at the reference
      weight; a head narrower than one counts as one; scratch follows the batch
      of at most 2048 tokens. */
  lemma PlanByTheBook(m: Model, n: nat)
    requires m.shape.None? && m.layerScale == 1.0
    ensures KvGb(m, 4096) == 0.56 && KvGb(m.(shape := Some(Gguf.Shape(36, 4096, 32, 8))), 4096) == 0.5625
    ensures KvGb(m.(shape := Some(Gguf.Shape(1, 1, 2, 1))), 1) == 4.0 / 1073741824.0
    ensures n >= 2048 ==> ExtrasWithoutKv(m, n) == 0.65 + 36.0 * 2048.0 / 180000.0
    ensures n <= 2048 ==> ExtrasWithoutKv(m, n) == 0.65 + 36.0 * Max(n, 1) as real / 180000.0
    ensures ExtrasWithoutKv(m.(shape := Some(Gguf.Shape(36, 4096, 32, 8))), n) == ExtrasWithoutKv(m, n)
  {
  }

  /** The candidate ladder's extra is this plan's, at 4096 tokens and without a
      shape. */
  lemma LadderUsesThisPlan(m: Model)
    requires m.shape.None?
    ensures KvGb(m, 4096) + ExtrasWithoutKv(m, 4096) == Ladder.FileExtra(m.layerScale)
  {
  }

  /** What an accelerator placement leaves for system RAM. */
  ghost function Overflow(m: Model, card: Card): real
  {
    (if WeightsNeed(m, 0) > card.totalVram as real then WeightsNeed(m, 0) - card.totalVram as real else 0.0)
    + (if card.totalVram as real + 0.005 >= FullNeed(m, 0) then 0.0 else JobKv(m))
  }

  /** A reservation is the overflow plus headroom, to the gigabyte; it is zero
      only for an overflow of at most 0.05 GB. */
  lemma ReservationIsOverflow(m: Model, card: Card, headroom: U32)
    requires NumbersOk(m) && !m.imageJob && !card.strategy.Metal? && !card.strategy.CpuOnly?
    ensures var need, r := Overflow(m, card), PlacementSysRamNeed(m, card, headroom);
      && (r == 0 <==> need <= 0.05)
      && (0 < r < U32_MAX ==> need + headroom as real <= r as real < need + headroom as real + 1.0)
  {
    var need := Overflow(m, card);
    if need > 0.05 {
      assert GbCeil(Some(need)) >= 1;
    }
  }

  /** A CPU slot reserves what its weights, KV cache and headroom take, or the
      catalog's minimum if that is more; pictures and unified memory reserve nothing. */
  lemma OtherReservations(m: Model, card: Card, headroom: U32, ram: U32)
    ensures !m.imageJob && card.strategy.CpuOnly? ==>
      (PlacementSysRamNeed(m, card, headroom) <= ram <==> RamHolds(ram, Weight(m) + JobKv(m), headroom) && RamFloor(m, ram))
    ensures m.imageJob || card.strategy.Metal? ==> PlacementSysRamNeed(m, card, headroom) == 0
  {
    RamHoldsIff(ram, Weight(m) + JobKv(m), headroom);
    RamFloorIff(m, ram);
  }

  // ---- hosting covers the reservation ----

  /** The weights miss the card by no more than the 5 MB slop, and that sliver
      carries the KV bytes over a whole gigabyte. */
  predicate SliverRoundsUp(m: Model, card: Card)
  {
    var short := WeightsNeed(m, 0) - card.totalVram as real;
    && 0.0 < short <= 0.005 && !KvFitsOnGpu(card.totalVram, m, 0)
    && short + JobKv(m) > 0.05 && GbCeil(Some(short + JobKv(m))) > GbCeil(Some(JobKv(m)))
  }

  /** The catalog calls the card full-size although the weights alone overflow it. */
  predicate FullNeedUnderstated(m: Model, card: Card)
  {
    KvFitsOnGpu(card.totalVram, m, 0) && WeightsNeed(m, 0) - card.totalVram as real > 0.05
  }

  /** A row that asks for the largest number of gigabytes is covered trivially. */
  predicate Covers(m: Model, card: Card)
  {
    if m.imageJob || card.strategy.Metal? then true
    else if GbCeil(m.minRam) == U32_MAX then true
    else if card.strategy.CpuOnly? then !KvFitsOnGpu(card.totalVram, m, 0)
    else !SliverRoundsUp(m, card) && !FullNeedUnderstated(m, card)
  }

  lemma CoveredReservation(m: Model, card: Card, ram: U32, headroom: U32)
    requires NumbersOk(m) && CanHostAt(m, card, ram, headroom, 0) && Covers(m, card)
    ensures PlacementSysRamNeed(m, card, headroom) <= ram
  {
    JobKvNonNegative(m);
    if !m.imageJob && !card.strategy.Metal? && !card.strategy.CpuOnly? {
      GbCeilMonotone(JobKv(m), Spilled(m, card.totalVram, 0) + JobKv(m));
    }
  }

  /** An uncovered card really has an accepted machine whose reservation exceeds
      its RAM. */
  lemma UncoveredReservation(m: Model, card: Card) returns (ram: U32, headroom: U32)
    requires NumbersOk(m) && !Covers(m, card)
    ensures CanHostAt(m, card, ram, headroom, 0) && PlacementSysRamNeed(m, card, headroom) > ram
  {
    if KvFitsOnGpu(card.totalVram, m, 0) {
      ram, headroom := GbCeil(m.minRam), U32_MAX;
    } else {
      headroom := U32_MAX - 1 - GbCeil(Some(JobKv(m)));
      ram := KvRamNeed(m, headroom);
    }
  }

  ghost predicate AlwaysCovered(m: Model, card: Card)
  {
    forall ram: U32, headroom: U32 :: CanHostAt(m, card, ram, headroom, 0) ==> PlacementSysRamNeed(m, card, headroom) <= ram
  }

  /** Acceptance covers the reservation on every machine exactly for these cards. */
  lemma HostingCoversReservationIff(m: Model, card: Card)
    requires NumbersOk(m)
    ensures AlwaysCovered(m, card) <==> Covers(m, card)
  {
    if Covers(m, card) {
      forall ram: U32, headroom: U32 | CanHostAt(m, card, ram, headroom, 0)
        ensures PlacementSysRamNeed(m, card, headroom) <= ram
      {
        CoveredReservation(m, card, ram, headroom);
      }
    } else {
      var ram, headroom := UncoveredReservation(m, card);
    }
  }

  /** With a consistent catalog an accelerator is at most one gigabyte over,
      and only inside the slop. */
  lemma AtMostOneOver(m: Model, card: Card, ram: U32, headroom: U32)
    requires NumbersOk(m) && !m.imageJob && !card.strategy.CpuOnly? && CanHostAt(m, card, ram, headroom, 0)
    requires WeightsNeed(m, 0) <= FullNeed(m, 0)
    ensures PlacementSysRamNeed(m, card, headroom) <= ram + 1
    ensures PlacementSysRamNeed(m, card, headroom) > ram ==>
      0.0 < WeightsNeed(m, 0) - card.totalVram as real <= 0.005
  {
    JobKvNonNegative(m);
    if !card.strategy.Metal? {
      GbCeilMonotone(JobKv(m), Spilled(m, card.totalVram, 0) + JobKv(m));
    }
  }

  /** Both exceptions are real: a 4 GB card for 4.004 GB of weights and 2 GB of
      KV, and a CPU slot for a row whose full-size number is tiny. */
  lemma UncoveredCardsExist() returns (m: Model, m': Model)
    ensures NumbersOk(m) && WeightsNeed(m, 0) <= FullNeed(m, 0) && !Covers(m, Card(Single, 4, true))
    ensures NumbersOk(m') && !Covers(m', Card(CpuOnly, 0, false))
  {
    m := Model(false, false, 4096, Some(3.5), None, None, Some(2.0), Some(6.5), Some(4.004), None, None, 1.0);
    m' := m.(gpuFull := Some(0.004));
    assert GbCeil(Some(2.004)) == 3 && GbCeil(Some(2.0)) == 2;
  }

  /** A consistent catalog row without server numbers is always in order. */
  lemma DerivedNeedsAreOrdered(m: Model)
    requires NumbersOk(m) && Above(m.gpuFull, 0.0).None? && Above(m.gpuWeights, 0.0).None?
    ensures WeightsNeed(m, 0) <= FullNeed(m, 0)
  {
    JobKvNonNegative(m);
    PlanGrows(m, EffectiveNCtx(m, 0), EffectiveNCtx(m, 0));
  }
}
