/** The partition of a machine's devices into compute slots, and the card that
    claims every homogeneous CUDA sibling at once. */
module SlotPlan {
  import opened Base
  import opened Numerals
  import Ladder

  datatype Kind = Discrete | Integrated | MetalKind | Cpu | OtherKind

  /** `sku` is the normalised CUDA product name; `vendorName` says whether the
      lower-case name mentions AMD, Radeon or Arc. */
  datatype Device = Device(
    id: string, kind: Kind, name: string, sku: string, vendorName: bool, vram: Option<nat>, enabled: bool)

  datatype PoolDevice = PoolDevice(id: string, kind: Kind, name: string, vram: nat, cudaIndex: Option<nat>)

  datatype VirtualCard = VirtualCard(
    devices: seq<PoolDevice>, strategy: Strategy, totalVram: nat, tensorSplit: seq<real>, cudaIds: seq<nat>,
    usesVulkan: bool, layerBudget: nat)

  datatype Slot = Slot(
    id: string, family: Role, priority: nat, card: VirtualCard, cudaVisible: seq<nat>, tpGroup: Option<string>)

  datatype Plan = Plan(slots: seq<Slot>, tpGroups: map<string, seq<nat>>)

  datatype PlanResult = Ok(plan: Plan) | NoDevices | NoSlots

  /** The compiled-in runtimes. */
  datatype Build = Build(metal: bool, vulkan: bool)

  // ---- one device ----

  predicate StartsWith(s: string, prefix: string) { |prefix| <= |s| && s[..|prefix|] == prefix }

  function ParseCudaIndex(id: string): Option<nat>
  {
    if StartsWith(id, "nvidia:") then ParseU32(id[7..]) else None
  }

  predicate IsMetal(d: Device) { d.kind.MetalKind? || StartsWith(d.id, "metal:") }

  predicate IsVulkan(d: Device)
  {
    if IsMetal(d) || d.kind.Cpu? || ParseCudaIndex(d.id).Some? then false
    else if d.kind.Integrated? then true
    else
      d.kind.Discrete? && (StartsWith(d.id, "amd:") || StartsWith(d.id, "pci-amd:")
        || StartsWith(d.id, "pci-intel:") || d.vendorName)
  }

  function EffectiveVram(d: Device): nat
  {
    if d.vram.Some? && d.vram.value > 0 then d.vram.value
    else if d.kind.Integrated? then 2
    else if d.kind.Discrete? || d.kind.MetalKind? then 1
    else 0
  }

  /** Which list the classification loop pushes a device on. */
  datatype Role = CudaRole | MetalRole | VulkanRole | IgpuRole | CpuRole | NoRole

  function RoleOf(d: Device): Role
  {
    if IsMetal(d) then MetalRole
    else if ParseCudaIndex(d.id).Some? && d.kind.Discrete? then CudaRole
    else if d.kind.Cpu? then CpuRole
    else if d.kind.Integrated? then IgpuRole
    else if IsVulkan(d) then VulkanRole
    else NoRole
  }

  function CudaIndex(d: Device): nat
  {
    if ParseCudaIndex(d.id).Some? then ParseCudaIndex(d.id).value else 0
  }

  // ---- one slot ----

  function MaxOf(v: seq<nat>): nat { if v == [] then 0 else Max(v[0], MaxOf(v[1..])) }

  function CudaVrams(devices: seq<PoolDevice>): seq<nat>
  {
    if devices == [] then []
    else (if devices[0].cudaIndex.Some? then [devices[0].vram] else []) + CudaVrams(devices[1..])
  }

  function CardForDevices(devices: seq<PoolDevice>, strategy: Strategy, totalVram: nat, tensorSplit: seq<real>,
                          cudaIds: seq<nat>, usesVulkan: bool): VirtualCard
  {
    var budgetVram :=
      if strategy.CpuOnly? then 0
      else if cudaIds != [] && CudaVrams(devices) != [] then MaxOf(CudaVrams(devices))
      else Max(totalVram, 1);
    VirtualCard(devices, strategy, totalVram, tensorSplit, cudaIds, usesVulkan,
                if strategy.CpuOnly? then 0 else Ladder.OffloadLayerBudget(budgetVram))
  }

  function Prefix(r: Role): string
  {
    match r
    case CudaRole => "cuda-"
    case MetalRole => "metal-"
    case VulkanRole => "vulkan-"
    case IgpuRole => "igpu-"
    case CpuRole => "cpu-"
    case NoRole => ""
  }

  function Priority(r: Role): nat
  {
    match r
    case CudaRole => 10
    case MetalRole => 15
    case VulkanRole => 20
    case IgpuRole => 40
    case _ => 90
  }

  function SlotId(r: Role, n: nat): string { Prefix(r) + Decimal(n) }

  function AsPoolDevice(d: Device, vram: nat, index: Option<nat>): PoolDevice
  {
    PoolDevice(d.id, d.kind, d.name, vram, index)
  }

  function CudaSlot(d: Device, tp: Option<string>): Slot
  {
    var idx, vram := CudaIndex(d), EffectiveVram(d);
    Slot(SlotId(CudaRole, idx), CudaRole, 10,
         CardForDevices([AsPoolDevice(d, vram, Some(idx))], Single, vram, [], [0], false), [idx], tp)
  }

  function GpuSlot(d: Device, r: Role, i: nat): Slot
  {
    var vram := EffectiveVram(d);
    Slot(SlotId(r, i), r, Priority(r),
         CardForDevices([AsPoolDevice(d, vram, None)], if r.MetalRole? then Metal else Vulkan, Max(vram, 1), [], [],
                        !r.MetalRole?), [], None)
  }

  function CpuSlot(d: Device): Slot
  {
    Slot("cpu-0", CpuRole, 90,
         CardForDevices([PoolDevice(d.id, Cpu, d.name, 0, None)], CpuOnly, 0, [], [], false), [], None)
  }

  const INVENTED_CPU := Device("cpu:0", Cpu, "CPU", "", false, None, true)

  // ---- what classification and the slots come to, field by field ----

  /** Unified memory comes first; a number behind `nvidia:` makes a discrete card
      a CUDA one; other discrete cards need a vendor's mark. */
  lemma RoleMeans(d: Device)
    ensures var metal := d.kind == MetalKind || "metal:" <= d.id;
      var numbered := "nvidia:" <= d.id && ParseU32(d.id[7..]).Some?;
      var marked := "amd:" <= d.id || "pci-amd:" <= d.id || "pci-intel:" <= d.id || d.vendorName;
      && (RoleOf(d) == MetalRole <==> metal)
      && (RoleOf(d) == CudaRole <==> !metal && d.kind == Discrete && numbered)
      && (RoleOf(d) == CpuRole <==> !metal && d.kind == Cpu)
      && (RoleOf(d) == IgpuRole <==> !metal && d.kind == Integrated)
      && (RoleOf(d) == VulkanRole <==> !metal && d.kind == Discrete && !numbered && marked)
  {
  }

  /** The reported size, or two gigabytes for an integrated and one for any other
      accelerator that reports none. */
  lemma VramMeans(d: Device)
    ensures d.vram.Some? && d.vram.value > 0 ==> EffectiveVram(d) == d.vram.value
    ensures d.vram in {None, Some(0)} && d.kind == Integrated ==> EffectiveVram(d) == 2
    ensures d.vram in {None, Some(0)} && (d.kind == Discrete || d.kind == MetalKind) ==> EffectiveVram(d) == 1
    ensures d.vram in {None, Some(0)} && (d.kind == Cpu || d.kind == OtherKind) ==> EffectiveVram(d) == 0
  {
  }

  /** A CUDA slot shows its worker the one card, as device 0, with the layers
      its VRAM stands for. */
  lemma CudaSlotMeans(d: Device, tp: Option<string>)
    requires RoleOf(d) == CudaRole
    ensures var s, n := CudaSlot(d, tp), ParseU32(d.id[7..]).value;
      && s.id == "cuda-" + Decimal(n) && s.family == CudaRole && s.priority == 10 && s.cudaVisible == [n] && s.tpGroup == tp
      && s.card.devices == [PoolDevice(d.id, d.kind, d.name, EffectiveVram(d), Some(n))] && s.card.cudaIds == [0]
      && s.card.strategy == Single && !s.card.usesVulkan && s.card.tensorSplit == []
      && s.card.totalVram == EffectiveVram(d) && s.card.layerBudget == Ladder.OffloadLayerBudget(EffectiveVram(d))
  {
    assert CudaVrams([AsPoolDevice(d, EffectiveVram(d), Some(CudaIndex(d)))]) == [EffectiveVram(d)];
    assert MaxOf([EffectiveVram(d)]) == EffectiveVram(d);
  }

  /** Metal and Vulkan slots are numbered within their family and own no CUDA
      index. */
  lemma GpuSlotMeans(d: Device, r: Role, i: nat)
    requires r in {MetalRole, VulkanRole, IgpuRole}
    ensures var s, vram := GpuSlot(d, r, i), EffectiveVram(d);
      && s.id == (if r == MetalRole then "metal-" else if r == VulkanRole then "vulkan-" else "igpu-") + Decimal(i)
      && s.family == r && s.priority == (if r == MetalRole then 15 else if r == VulkanRole then 20 else 40)
      && s.cudaVisible == [] && s.tpGroup == None && s.card.cudaIds == [] && s.card.tensorSplit == []
      && s.card.devices == [PoolDevice(d.id, d.kind, d.name, vram, None)]
      && s.card.strategy == (if r == MetalRole then Metal else Vulkan) && (s.card.usesVulkan <==> r != MetalRole)
      && s.card.totalVram == (if vram == 0 then 1 else vram)
      && s.card.layerBudget == Ladder.OffloadLayerBudget(s.card.totalVram)
  {
  }

  // ---- the lists the classification loop fills ----

  /** A reference to a row of the device list. */
  datatype Row = Row(pos: nat, device: Device)

  /** The enabled devices of one role among the first `n`, in device order. */
  function Picked(devices: seq<Device>, r: Role, n: nat): seq<Row>
    requires n <= |devices|
  {
    if n == 0 then []
    else
      var d := devices[n - 1];
      Picked(devices, r, n - 1) + if d.enabled && RoleOf(d) == r then [Row(n - 1, d)] else []
  }

  function All(devices: seq<Device>, r: Role): seq<Row> { Picked(devices, r, |devices|) }

  predicate IsRow(devices: seq<Device>, r: Role, n: nat, x: Row)
    requires n <= |devices|
  {
    x.pos < n && devices[x.pos] == x.device && x.device.enabled && RoleOf(x.device) == r
  }

  predicate Increasing(rows: seq<Row>) { forall i, j :: 0 <= i < j < |rows| ==> rows[i].pos < rows[j].pos }

  lemma {:induction false} PickedMeans(devices: seq<Device>, r: Role, n: nat)
    requires n <= |devices|
    ensures forall x :: x in Picked(devices, r, n) <==> IsRow(devices, r, n, x)
    ensures Increasing(Picked(devices, r, n))
  {
    if n > 0 {
      PickedMeans(devices, r, n - 1);
      var front := Picked(devices, r, n - 1);
      forall i | 0 <= i < |front| ensures front[i].pos < n - 1 { assert front[i] in front && IsRow(devices, r, n - 1, front[i]); }
    }
  }

  /** `cuda_sorted.sort_by`: larger first, then the lower index. */
  predicate Before(a: Device, b: Device)
  {
    EffectiveVram(a) > EffectiveVram(b) || (EffectiveVram(a) == EffectiveVram(b) && CudaIndex(a) <= CudaIndex(b))
  }

  function Insert(x: Row, rows: seq<Row>): (r: seq<Row>)
    ensures multiset(r) == multiset(rows) + multiset{x}
  {
    if rows == [] then [x]
    else if Before(x.device, rows[0].device) then [x] + rows
    else
      assert rows == [rows[0]] + rows[1..];
      [rows[0]] + Insert(x, rows[1..])
  }

  function SortCuda(rows: seq<Row>): (r: seq<Row>)
    ensures multiset(r) == multiset(rows)
  {
    if rows == [] then []
    else
      assert rows == [rows[0]] + rows[1..];
      Insert(rows[0], SortCuda(rows[1..]))
  }

  predicate Sorted(rows: seq<Row>)
  {
    forall i, j :: 0 <= i < j < |rows| ==> Before(rows[i].device, rows[j].device)
  }

  lemma {:induction false} InsertKeepsSorted(x: Row, rows: seq<Row>)
    requires Sorted(rows)
    ensures Sorted(Insert(x, rows))
  {
    if rows != [] && !Before(x.device, rows[0].device) {
      var tail := Insert(x, rows[1..]);
      InsertKeepsSorted(x, rows[1..]);
      forall i | 0 <= i < |tail| ensures Before(rows[0].device, tail[i].device) {
        assert tail[i] in multiset(tail);
        assert tail[i] == x || tail[i] in rows[1..];
      }
    }
  }

  lemma {:induction false} SortCudaSorts(rows: seq<Row>)
    ensures Sorted(SortCuda(rows))
  {
    if rows != [] {
      SortCudaSorts(rows[1..]);
      InsertKeepsSorted(rows[0], SortCuda(rows[1..]));
    }
  }

  // ---- homogeneity ----

  function MinOf(v: seq<nat>): nat
    requires v != []
  {
    if |v| == 1 then v[0] else Min(v[0], MinOf(v[1..]))
  }

  lemma {:induction false} ExtremesAttained(v: seq<nat>)
    requires v != []
    ensures MinOf(v) in v && MaxOf(v) in v && forall x :: x in v ==> MinOf(v) <= x <= MaxOf(v)
  {
    assert v == [v[0]] + v[1..];
    if |v| > 1 { ExtremesAttained(v[1..]); }
  }

  /** `cuda_name_vram_homogeneous`, on normalised product names. */
  predicate NameVramHomogeneous(skus: seq<string>, vrams: seq<nat>)
  {
    if |skus| < 2 || |skus| != |vrams| then false
    else if "" in skus || exists s :: s in skus && s != skus[0] then false
    else MaxOf(vrams) - MinOf(vrams) <= 1
  }

  /** At least two cards, one non-empty product, sizes pairwise within one
      gigabyte. */
  lemma HomogeneousIff(skus: seq<string>, vrams: seq<nat>)
    requires |skus| == |vrams|
    ensures NameVramHomogeneous(skus, vrams) <==>
      |skus| >= 2 && OneProduct(skus) && forall x, y :: x in vrams && y in vrams ==> x - y <= 1
  {
    if |skus| >= 2 {
      ExtremesAttained(vrams);
      OneProductIff(skus);
    }
  }

  predicate OneProduct(skus: seq<string>) { forall i, j :: 0 <= i < j < |skus| ==> skus[i] == skus[j] != "" }

  lemma OneProductIff(skus: seq<string>)
    requires |skus| >= 2
    ensures OneProduct(skus) <==> "" !in skus && forall s :: s in skus ==> s == skus[0]
  {
    if OneProduct(skus) {
      assert skus[0] == skus[1] != "";
      forall s | s in skus ensures s == skus[0] {
        var i :| 0 <= i < |skus| && skus[i] == s;
        if i > 0 { assert skus[0] == skus[i]; }
      }
    } else {
      var i, j :| 0 <= i < j < |skus| && !(skus[i] == skus[j] != "");
      assert skus[i] in skus && skus[j] in skus;
    }
  }

  function Skus(rows: seq<Row>): seq<string> { seq(|rows|, k requires 0 <= k < |rows| => rows[k].device.sku) }

  function Vrams(rows: seq<Row>): seq<nat>
  {
    seq(|rows|, k requires 0 <= k < |rows| => EffectiveVram(rows[k].device))
  }

  function Indices(rows: seq<Row>): seq<nat>
  {
    seq(|rows|, k requires 0 <= k < |rows| => CudaIndex(rows[k].device))
  }

  predicate Homogeneous(rows: seq<Row>) { NameVramHomogeneous(Skus(rows), Vrams(rows)) }

  // ---- the plan ----

  const TP_GROUP := "cuda-tp-0"

  function TpGroup(cuda: seq<Row>): Option<string> { if Homogeneous(cuda) then Some(TP_GROUP) else None }

  function TpGroups(cuda: seq<Row>): map<string, seq<nat>>
  {
    if Homogeneous(cuda) then map[TP_GROUP := Indices(cuda)] else map[]
  }

  function CudaSlots(rows: seq<Row>, tp: Option<string>): seq<Slot>
  {
    seq(|rows|, k requires 0 <= k < |rows| => CudaSlot(rows[k].device, tp))
  }

  function GpuSlots(r: Role, rows: seq<Row>): seq<Slot>
  {
    seq(|rows|, k requires 0 <= k < |rows| => GpuSlot(rows[k].device, r, k))
  }

  predicate CpuTurnedOff(devices: seq<Device>) { exists d :: d in devices && d.kind.Cpu? && !d.enabled }

  predicate CpuOffered(devices: seq<Device>, b: Build)
  {
    !(b.metal && All(devices, MetalRole) != []) && !CpuTurnedOff(devices)
  }

  function LastOf(rows: seq<Row>): Option<Row> { if rows == [] then None else Some(rows[|rows| - 1]) }

  /** The rows of the four accelerator families that get slots, in slot order. */
  function CudaRows(devices: seq<Device>): seq<Row> { SortCuda(All(devices, CudaRole)) }

  function GpuRows(devices: seq<Device>, on: bool, r: Role): seq<Row> { if on then All(devices, r) else [] }

  /** The CPU row: the last enabled one, or none when the slot is invented. */
  function LastCpu(devices: seq<Device>): Option<Row> { LastOf(All(devices, CpuRole)) }

  function CpuSlots(devices: seq<Device>, b: Build): seq<Slot>
  {
    if CpuOffered(devices, b) then
      [CpuSlot(if LastCpu(devices).Some? then LastCpu(devices).value.device else INVENTED_CPU)]
    else []
  }

  function GpuFamilies(devices: seq<Device>, b: Build): seq<Slot>
  {
    GpuSlots(MetalRole, GpuRows(devices, b.metal, MetalRole)) + GpuSlots(VulkanRole, GpuRows(devices, b.vulkan, VulkanRole))
    + GpuSlots(IgpuRole, GpuRows(devices, b.vulkan, IgpuRole))
  }

  function Slots(devices: seq<Device>, b: Build): seq<Slot>
  {
    CudaSlots(CudaRows(devices), TpGroup(All(devices, CudaRole))) + GpuFamilies(devices, b) + CpuSlots(devices, b)
  }

  /** The classification loop. */
  method Classify(devices: seq<Device>)
    returns (cuda: seq<Row>, metal: seq<Row>, vulkan: seq<Row>, integrated: seq<Row>, cpu: Option<Row>)
    ensures cuda == All(devices, CudaRole) && metal == All(devices, MetalRole)
    ensures vulkan == All(devices, VulkanRole) && integrated == All(devices, IgpuRole)
    ensures cpu == LastCpu(devices)
  {
    cuda, metal, vulkan, integrated, cpu := [], [], [], [], None;
    for i := 0 to |devices|
      invariant cuda == Picked(devices, CudaRole, i) && metal == Picked(devices, MetalRole, i)
      invariant vulkan == Picked(devices, VulkanRole, i) && integrated == Picked(devices, IgpuRole, i)
      invariant cpu == LastOf(Picked(devices, CpuRole, i))
    {
      var d := devices[i];
      if !d.enabled {
        continue;
      }
      if IsMetal(d) {
        metal := metal + [Row(i, d)];
        continue;
      }
      if ParseCudaIndex(d.id).Some? && d.kind.Discrete? {
        cuda := cuda + [Row(i, d)];
        continue;
      }
      if d.kind.Cpu? {
        cpu := Some(Row(i, d));
        continue;
      }
      if d.kind.Integrated? {
        integrated := integrated + [Row(i, d)];
        continue;
      }
      if IsVulkan(d) {
        vulkan := vulkan + [Row(i, d)];
      }
    }
  }

  method BuildComputeSlots(devices: seq<Device>, b: Build) returns (r: PlanResult)
    ensures r.NoDevices? <==> forall d :: d in devices ==> !d.enabled
    ensures r.NoSlots? ==> Slots(devices, b) == []
    ensures r.Ok? ==> r.plan.slots == Slots(devices, b) != []
    ensures r.Ok? ==> r.plan.tpGroups == TpGroups(All(devices, CudaRole))
  {
    if !exists d :: d in devices && d.enabled {
      return NoDevices;
    }
    var cuda, metal, vulkan, integrated, cpu := Classify(devices);
    var tpGroup, tpGroups := FindTpGroup(cuda);
    var slots := PushCudaSlots(SortCuda(cuda), tpGroup);
    slots := PushGpuFamilies(slots, devices, b, metal, vulkan, integrated);
    if !(b.metal && metal != []) && !CpuTurnedOff(devices) {
      slots := slots + [CpuSlot(if cpu.Some? then cpu.value.device else INVENTED_CPU)];
    }
    if slots == [] {
      return NoSlots;
    }
    return Ok(Plan(slots, tpGroups));
  }

  method FindTpGroup(cuda: seq<Row>) returns (tpGroup: Option<string>, tpGroups: map<string, seq<nat>>)
    ensures tpGroup == TpGroup(cuda) && tpGroups == TpGroups(cuda)
  {
    var homogeneous := |cuda| >= 2 && NameVramHomogeneous(Skus(cuda), Vrams(cuda));
    tpGroup := if homogeneous then Some(TP_GROUP) else None;
    tpGroups := map[];
    if tpGroup.Some? {
      tpGroups := tpGroups[TP_GROUP := Indices(cuda)];
    }
  }

  predicate SameProduct(cuda: seq<Row>)
  {
    forall i, j :: 0 <= i < j < |cuda| ==> cuda[i].device.sku == cuda[j].device.sku != ""
  }

  lemma SameProductIff(cuda: seq<Row>)
    ensures OneProduct(Skus(cuda)) <==> SameProduct(cuda)
  {
    var skus := Skus(cuda);
    if !OneProduct(skus) {
      var i, j :| 0 <= i < j < |skus| && !(skus[i] == skus[j] != "");
      assert skus[i] == cuda[i].device.sku && skus[j] == cuda[j].device.sku;
    }
    if !SameProduct(cuda) {
      var i, j :| 0 <= i < j < |cuda| && !(cuda[i].device.sku == cuda[j].device.sku != "");
      assert skus[i] == cuda[i].device.sku && skus[j] == cuda[j].device.sku;
    }
  }

  /** The plan groups the CUDA cards exactly when there are at least two, of one
      named product and within a gigabyte of each other, and then it lists all
      their indices in device order. */
  lemma TpGroupIff(cuda: seq<Row>)
    ensures TP_GROUP in TpGroups(cuda) <==>
      && |cuda| >= 2 && SameProduct(cuda)
      && (forall x, y :: x in cuda && y in cuda ==> EffectiveVram(x.device) - EffectiveVram(y.device) <= 1)
    ensures TP_GROUP in TpGroups(cuda) ==> TpGroups(cuda) == map[TP_GROUP := Indices(cuda)]
  {
    HomogeneousIff(Skus(cuda), Vrams(cuda));
    SameProductIff(cuda);
    forall x | x in cuda ensures EffectiveVram(x.device) in Vrams(cuda) {
      var i :| 0 <= i < |cuda| && cuda[i] == x;
      assert Vrams(cuda)[i] == EffectiveVram(x.device);
    }
    forall v | v in Vrams(cuda) ensures exists x :: x in cuda && EffectiveVram(x.device) == v {
      var i :| 0 <= i < |cuda| && Vrams(cuda)[i] == v;
      assert cuda[i] in cuda;
    }
  }

  lemma Regroup<T>(a: seq<T>, b: seq<T>, c: seq<T>, d: seq<T>)
    ensures a + b + c + d == a + (b + c + d)
  {
  }

  method PushGpuFamilies(before: seq<Slot>, ghost devices: seq<Device>, b: Build, metal: seq<Row>, vulkan: seq<Row>,
                         integrated: seq<Row>) returns (slots: seq<Slot>)
    requires metal == All(devices, MetalRole) && vulkan == All(devices, VulkanRole) && integrated == All(devices, IgpuRole)
    ensures slots == before + GpuFamilies(devices, b)
  {
    var noRows: seq<Row> := [];
    slots := PushGpuSlots(before, MetalRole, if b.metal then metal else noRows);
    slots := PushGpuSlots(slots, VulkanRole, if b.vulkan then vulkan else noRows);
    slots := PushGpuSlots(slots, IgpuRole, if b.vulkan then integrated else noRows);
    Regroup(before, GpuSlots(MetalRole, GpuRows(devices, b.metal, MetalRole)),
            GpuSlots(VulkanRole, GpuRows(devices, b.vulkan, VulkanRole)),
            GpuSlots(IgpuRole, GpuRows(devices, b.vulkan, IgpuRole)));
  }

  method PushCudaSlots(rows: seq<Row>, tp: Option<string>) returns (slots: seq<Slot>)
    ensures slots == CudaSlots(rows, tp)
  {
    slots := [];
    for k := 0 to |rows|
      invariant slots == CudaSlots(rows[..k], tp)
    {
      slots := slots + [CudaSlot(rows[k].device, tp)];
    }
    assert rows[..|rows|] == rows;
  }

  method PushGpuSlots(before: seq<Slot>, r: Role, rows: seq<Row>) returns (slots: seq<Slot>)
    ensures slots == before + GpuSlots(r, rows)
  {
    slots := before;
    for i := 0 to |rows|
      invariant slots == before + GpuSlots(r, rows[..i])
    {
      slots := slots + [GpuSlot(rows[i].device, r, i)];
    }
    assert rows[..|rows|] == rows;
  }

  // ---- the plan is a partition ----

  function Somes(rows: seq<Row>): seq<Option<Row>> { seq(|rows|, k requires 0 <= k < |rows| => Some(rows[k])) }

  function GpuBacking(devices: seq<Device>, b: Build): seq<Option<Row>>
  {
    Somes(GpuRows(devices, b.metal, MetalRole)) + Somes(GpuRows(devices, b.vulkan, VulkanRole))
    + Somes(GpuRows(devices, b.vulkan, IgpuRole))
  }

  function CpuBacking(devices: seq<Device>, b: Build): seq<Option<Row>>
  {
    if CpuOffered(devices, b) then [LastCpu(devices)] else []
  }

  /** Which row backs each slot; `None` is the invented CPU. */
  function Backing(devices: seq<Device>, b: Build): seq<Option<Row>>
  {
    Somes(CudaRows(devices)) + GpuBacking(devices, b) + CpuBacking(devices, b)
  }

  /** The slot drives exactly this device, under its own physical index. */
  predicate Drives(s: Slot, d: Device)
  {
    && |s.card.devices| == 1 && s.card.devices[0].id == d.id && s.card.devices[0].name == d.name
    && s.cudaVisible == (if s.family.CudaRole? then [CudaIndex(d)] else [])
    && s.card.totalVram == (if s.family.CpuRole? then 0 else Max(EffectiveVram(d), 1))
    && s.card.strategy == match s.family
       case CudaRole => Single
       case MetalRole => Metal
       case CpuRole => CpuOnly
       case _ => Vulkan
  }

  ghost predicate HasId(s: Slot) { exists n: nat :: s.id == SlotId(s.family, n) }

  ghost predicate Backs(devices: seq<Device>, s: Slot, row: Option<Row>)
  {
    && HasId(s) && s.family != NoRole
    && match row
       case None => s == CpuSlot(INVENTED_CPU)
       case Some(x) =>
         x.pos < |devices| && devices[x.pos] == x.device && x.device.enabled && s.family == RoleOf(x.device) && Drives(s, x.device)
  }

  predicate Apart(s: Slot, row: Option<Row>, s': Slot, row': Option<Row>)
  {
    s.id != s'.id && (row.Some? && row'.Some? ==> row.value.pos != row'.value.pos)
  }

  /** Every slot has its own backing, no device backs two, no id occurs twice. */
  ghost predicate Partition(devices: seq<Device>, slots: seq<Slot>, rows: seq<Option<Row>>)
  {
    && |slots| == |rows| && (forall i :: 0 <= i < |slots| ==> Backs(devices, slots[i], rows[i]))
    && (forall i, j :: 0 <= i < j < |slots| ==> Apart(slots[i], rows[i], slots[j], rows[j]))
  }

  lemma PrefixTellsFamily(r: Role, n: nat, r': Role, n': nat)
    requires r != NoRole && r' != NoRole && SlotId(r, n) == SlotId(r', n')
    ensures r == r' && n == n'
  {
    var id := SlotId(r, n);
    assert id[0] == Prefix(r)[0] && id[1] == Prefix(r)[1] && id[0] == Prefix(r')[0] && id[1] == Prefix(r')[1];
    assert r == r';
    assert Decimal(n) == id[|Prefix(r)|..] && Decimal(n') == id[|Prefix(r)|..];
    DecimalInjective(n, n');
  }

  predicate FamilyApart(a: seq<Slot>, b: seq<Slot>) { forall x, y :: x in a && y in b ==> x.family != y.family }

  lemma FamiliesApart(devices: seq<Device>, s: Slot, row: Option<Row>, s': Slot, row': Option<Row>)
    requires Backs(devices, s, row) && Backs(devices, s', row') && s.family != s'.family
    ensures Apart(s, row, s', row')
  {
    if s.id == s'.id {
      var n: nat :| s.id == SlotId(s.family, n);
      var n': nat :| s'.id == SlotId(s'.family, n');
      PrefixTellsFamily(s.family, n, s'.family, n');
    }
  }

  lemma Join(devices: seq<Device>, a: seq<Slot>, ra: seq<Option<Row>>, b: seq<Slot>, rb: seq<Option<Row>>)
    requires Partition(devices, a, ra) && Partition(devices, b, rb) && FamilyApart(a, b)
    ensures Partition(devices, a + b, ra + rb)
  {
    var slots, rows := a + b, ra + rb;
    forall i | 0 <= i < |slots| ensures Backs(devices, slots[i], rows[i]) {
      if i < |a| {
        assert slots[i] == a[i] && rows[i] == ra[i];
      } else {
        assert slots[i] == b[i - |a|] && rows[i] == rb[i - |a|];
      }
    }
    forall i, j | 0 <= i < j < |slots| ensures Apart(slots[i], rows[i], slots[j], rows[j]) {
      if j < |a| {
        assert Apart(a[i], ra[i], a[j], ra[j]);
      } else if i >= |a| {
        assert Apart(b[i - |a|], rb[i - |a|], b[j - |a|], rb[j - |a|]);
      } else {
        assert slots[i] in a && slots[j] in b;
        FamiliesApart(devices, slots[i], rows[i], slots[j], rows[j]);
      }
    }
  }

  lemma GpuFamilyPartition(devices: seq<Device>, on: bool, r: Role)
    requires r in {MetalRole, VulkanRole, IgpuRole}
    ensures Partition(devices, GpuSlots(r, GpuRows(devices, on, r)), Somes(GpuRows(devices, on, r)))
  {
    var rows := GpuRows(devices, on, r);
    var slots := GpuSlots(r, rows);
    PickedMeans(devices, r, |devices|);
    forall i | 0 <= i < |rows| ensures Backs(devices, slots[i], Some(rows[i])) {
      assert rows[i] in rows && slots[i].id == SlotId(r, i);
    }
    forall i, j | 0 <= i < j < |rows| ensures Apart(slots[i], Some(rows[i]), slots[j], Some(rows[j])) {
      if slots[i].id == slots[j].id { PrefixTellsFamily(r, i, r, j); }
    }
  }

  predicate DistinctIndices(rows: seq<Row>)
  {
    forall x, y :: x in rows && y in rows && x != y ==> CudaIndex(x.device) != CudaIndex(y.device)
  }

  lemma SortedRowsAreRows(devices: seq<Device>)
    ensures forall x :: x in CudaRows(devices) <==> IsRow(devices, CudaRole, |devices|, x)
    ensures forall i, j :: 0 <= i < j < |CudaRows(devices)| ==> CudaRows(devices)[i] != CudaRows(devices)[j]
    ensures |CudaRows(devices)| == |All(devices, CudaRole)| && Sorted(CudaRows(devices))
  {
    var rows, sorted := All(devices, CudaRole), CudaRows(devices);
    PickedMeans(devices, CudaRole, |devices|);
    SortCudaSorts(rows);
    assert forall x :: x in sorted <==> x in multiset(sorted);
    assert forall x :: x in rows <==> x in multiset(rows);
    assert |multiset(sorted)| == |multiset(rows)|;
    OncePerRow(rows);
    forall i, j | 0 <= i < j < |sorted| ensures sorted[i] != sorted[j] {
      if sorted[i] == sorted[j] { TwiceIsTwo(sorted, i, j); }
    }
  }

  lemma {:induction false} OncePerRow(rows: seq<Row>)
    requires Increasing(rows)
    ensures forall x :: multiset(rows)[x] <= 1
  {
    if rows != [] {
      var front, last := rows[..|rows| - 1], rows[|rows| - 1];
      OncePerRow(front);
      assert rows == front + [last];
      assert last !in front;
    }
  }

  lemma TwiceIsTwo<T>(s: seq<T>, i: nat, j: nat)
    requires i < j < |s| && s[i] == s[j]
    ensures multiset(s)[s[i]] >= 2
  {
    assert s == s[..i] + [s[i]] + s[i + 1..j] + [s[j]] + s[j + 1..];
  }

  lemma CudaRowBacks(devices: seq<Device>, x: Row, tp: Option<string>)
    requires IsRow(devices, CudaRole, |devices|, x)
    ensures Backs(devices, CudaSlot(x.device, tp), Some(x))
  {
    assert CudaSlot(x.device, tp).id == SlotId(CudaRole, CudaIndex(x.device));
  }

  lemma CudaRowsApart(x: Row, y: Row, tp: Option<string>)
    requires x.pos != y.pos
    ensures Apart(CudaSlot(x.device, tp), Some(x), CudaSlot(y.device, tp), Some(y)) <==>
      CudaIndex(x.device) != CudaIndex(y.device)
  {
    if CudaSlot(x.device, tp).id == CudaSlot(y.device, tp).id {
      PrefixTellsFamily(CudaRole, CudaIndex(x.device), CudaRole, CudaIndex(y.device));
    }
  }

  lemma CudaPartition(devices: seq<Device>, tp: Option<string>)
    requires DistinctIndices(All(devices, CudaRole))
    ensures Partition(devices, CudaSlots(CudaRows(devices), tp), Somes(CudaRows(devices)))
  {
    var rows := CudaRows(devices);
    SortedRowsAreRows(devices);
    PickedMeans(devices, CudaRole, |devices|);
    forall i | 0 <= i < |rows| ensures Backs(devices, CudaSlot(rows[i].device, tp), Some(rows[i])) {
      assert rows[i] in rows;
      CudaRowBacks(devices, rows[i], tp);
    }
    forall i, j | 0 <= i < j < |rows|
      ensures Apart(CudaSlot(rows[i].device, tp), Some(rows[i]), CudaSlot(rows[j].device, tp), Some(rows[j]))
    {
      assert rows[i] in rows && rows[j] in rows && rows[i] != rows[j];
      CudaRowsApart(rows[i], rows[j], tp);
    }
  }

  lemma CpuPartition(devices: seq<Device>, b: Build)
    ensures Partition(devices, CpuSlots(devices, b), CpuBacking(devices, b))
  {
    PickedMeans(devices, CpuRole, |devices|);
    assert SlotId(CpuRole, 0) == "cpu-0" by { assert Decimal(0) == "0"; }
    if CpuOffered(devices, b) && LastCpu(devices).Some? {
      assert LastCpu(devices).value in All(devices, CpuRole);
      assert LastCpu(devices).value.device.enabled;
    }
  }

  lemma GpuFamilyOf(r: Role, rows: seq<Row>)
    ensures forall s :: s in GpuSlots(r, rows) ==> s.family == r
  {
  }

  lemma GpuFamiliesPartition(devices: seq<Device>, b: Build)
    ensures Partition(devices, GpuFamilies(devices, b), GpuBacking(devices, b))
    ensures forall s :: s in GpuFamilies(devices, b) ==> s.family in {MetalRole, VulkanRole, IgpuRole}
  {
    var m := GpuRows(devices, b.metal, MetalRole);
    var v := GpuRows(devices, b.vulkan, VulkanRole);
    var g := GpuRows(devices, b.vulkan, IgpuRole);
    GpuFamilyPartition(devices, b.metal, MetalRole);
    GpuFamilyPartition(devices, b.vulkan, VulkanRole);
    GpuFamilyPartition(devices, b.vulkan, IgpuRole);
    GpuFamilyOf(MetalRole, m);
    GpuFamilyOf(VulkanRole, v);
    GpuFamilyOf(IgpuRole, g);
    var ms, vs, gs := GpuSlots(MetalRole, m), GpuSlots(VulkanRole, v), GpuSlots(IgpuRole, g);
    Join(devices, ms, Somes(m), vs, Somes(v));
    Join(devices, ms + vs, Somes(m) + Somes(v), gs, Somes(g));
  }

  lemma JoinThree(devices: seq<Device>, a: seq<Slot>, ra: seq<Option<Row>>, b: seq<Slot>, rb: seq<Option<Row>>,
                  c: seq<Slot>, rc: seq<Option<Row>>)
    requires Partition(devices, a, ra) && Partition(devices, b, rb) && Partition(devices, c, rc)
    requires FamilyApart(a, b) && FamilyApart(a, c) && FamilyApart(b, c)
    ensures Partition(devices, a + b + c, ra + rb + rc)
  {
    Join(devices, a, ra, b, rb);
    Join(devices, a + b, ra + rb, c, rc);
  }

  lemma CudaAndCpuFamilies(devices: seq<Device>, b: Build, rows: seq<Row>, tp: Option<string>)
    ensures forall s :: s in CudaSlots(rows, tp) ==> s.family == CudaRole
    ensures forall s :: s in CpuSlots(devices, b) ==> s.family == CpuRole
  {
  }

  lemma SlotsPartition(devices: seq<Device>, b: Build)
    requires DistinctIndices(All(devices, CudaRole))
    ensures Partition(devices, Slots(devices, b), Backing(devices, b))
  {
    var rows, tp := CudaRows(devices), TpGroup(All(devices, CudaRole));
    CudaPartition(devices, tp);
    GpuFamiliesPartition(devices, b);
    CpuPartition(devices, b);
    CudaAndCpuFamilies(devices, b, rows, tp);
    JoinThree(devices, CudaSlots(rows, tp), Somes(rows), GpuFamilies(devices, b), GpuBacking(devices, b),
              CpuSlots(devices, b), CpuBacking(devices, b));
  }

  /** The plan is a partition exactly when no two enabled cards share an index. */
  lemma SlotsPartitionIff(devices: seq<Device>, b: Build)
    ensures Partition(devices, Slots(devices, b), Backing(devices, b)) <==> DistinctIndices(All(devices, CudaRole))
  {
    if DistinctIndices(All(devices, CudaRole)) {
      SlotsPartition(devices, b);
    } else {
      DuplicateBreaksPartition(devices, b);
    }
  }

  lemma CudaPrefix(devices: seq<Device>, b: Build, i: nat)
    requires i < |CudaRows(devices)|
    ensures i < |Slots(devices, b)|
    ensures Slots(devices, b)[i] == CudaSlot(CudaRows(devices)[i].device, TpGroup(All(devices, CudaRole)))
  {
  }

  lemma DuplicateInSortedRows(devices: seq<Device>) returns (i: nat, j: nat)
    requires !DistinctIndices(All(devices, CudaRole))
    ensures i < j < |CudaRows(devices)|
    ensures CudaIndex(CudaRows(devices)[i].device) == CudaIndex(CudaRows(devices)[j].device)
  {
    var rows := CudaRows(devices);
    var x, y :| x in All(devices, CudaRole) && y in All(devices, CudaRole) && x != y && CudaIndex(x.device) == CudaIndex(y.device);
    assert x in multiset(rows) && y in multiset(rows);
    i :| 0 <= i < |rows| && rows[i] == x;
    j :| 0 <= j < |rows| && rows[j] == y;
    if j < i { i, j := j, i; }
  }

  lemma DuplicateBreaksPartition(devices: seq<Device>, b: Build)
    requires !DistinctIndices(All(devices, CudaRole))
    ensures !Partition(devices, Slots(devices, b), Backing(devices, b))
  {
    var i, j := DuplicateInSortedRows(devices);
    CudaPrefix(devices, b, i);
    CudaPrefix(devices, b, j);
    SameIndexSameId(CudaRows(devices)[i].device, CudaRows(devices)[j].device, TpGroup(All(devices, CudaRole)));
    NotAPartition(devices, Slots(devices, b), Backing(devices, b), i, j);
  }

  lemma SameIndexSameId(d: Device, d': Device, tp: Option<string>)
    requires CudaIndex(d) == CudaIndex(d')
    ensures CudaSlot(d, tp).id == CudaSlot(d', tp).id
  {
  }

  lemma NotAPartition(devices: seq<Device>, slots: seq<Slot>, rows: seq<Option<Row>>, i: nat, j: nat)
    requires i < j < |slots| && slots[i].id == slots[j].id
    ensures !Partition(devices, slots, rows)
  {
    if |rows| == |slots| {
      assert !Apart(slots[i], rows[i], slots[j], rows[j]);
    }
  }

  lemma SomesAreSome(rows: seq<Row>)
    ensures None !in Somes(rows)
  {
  }

  lemma OnlyTheCpuIsInvented(devices: seq<Device>, b: Build)
    requires None in Backing(devices, b)
    ensures CpuOffered(devices, b) && LastCpu(devices) == None
  {
    SomesAreSome(CudaRows(devices));
    SomesAreSome(GpuRows(devices, b.metal, MetalRole));
    SomesAreSome(GpuRows(devices, b.vulkan, VulkanRole));
    SomesAreSome(GpuRows(devices, b.vulkan, IgpuRole));
  }

  lemma EnabledCpuIsPicked(devices: seq<Device>, p: nat)
    requires p < |devices| && RoleOf(devices[p]).CpuRole? && devices[p].enabled
    ensures LastCpu(devices).Some?
  {
    PickedMeans(devices, CpuRole, |devices|);
    assert IsRow(devices, CpuRole, |devices|, Row(p, devices[p]));
  }

  /** The plan invents a CPU only for a machine that lists none, on or off. */
  lemma InventedCpuOnlyWithoutRow(devices: seq<Device>, b: Build, p: nat)
    requires None in Backing(devices, b) && p < |devices| && !IsMetal(devices[p])
    ensures !devices[p].kind.Cpu?
  {
    OnlyTheCpuIsInvented(devices, b);
    assert devices[p] in devices;
    if devices[p].kind.Cpu? && devices[p].enabled {
      CpuKindIsCpuRole(devices[p]);
      EnabledCpuIsPicked(devices, p);
    }
  }

  lemma CpuKindIsCpuRole(d: Device)
    requires d.kind.Cpu? && !IsMetal(d)
    ensures RoleOf(d).CpuRole?
  {
  }

  /** There is a CPU slot exactly when no CPU row is turned off and no enabled
      device is Metal on a build with Metal. */
  lemma CpuSlotIff(devices: seq<Device>, b: Build)
    ensures (exists s :: s in Slots(devices, b) && s.family == CpuRole) <==>
      && (forall d :: d in devices && d.kind == Cpu ==> d.enabled)
      && !(b.metal && exists d :: d in devices && d.enabled && (d.kind == MetalKind || "metal:" <= d.id))
  {
    CpuSlotsAreCpu(devices, b);
    OfferedIff(devices, b);
    if CpuOffered(devices, b) { assert CpuSlots(devices, b)[0] in CpuSlots(devices, b); }
  }

  lemma OfferedIff(devices: seq<Device>, b: Build)
    ensures CpuOffered(devices, b) <==>
      && (forall d :: d in devices && d.kind == Cpu ==> d.enabled)
      && !(b.metal && exists d :: d in devices && d.enabled && (d.kind == MetalKind || "metal:" <= d.id))
  {
    MetalListed(devices);
  }

  lemma CpuSlotsAreCpu(devices: seq<Device>, b: Build)
    ensures forall s :: s in Slots(devices, b) && s.family == CpuRole <==> s in CpuSlots(devices, b)
    ensures |CpuSlots(devices, b)| == if CpuOffered(devices, b) then 1 else 0
  {
    GpuFamiliesPartition(devices, b);
    CudaAndCpuFamilies(devices, b, CudaRows(devices), TpGroup(All(devices, CudaRole)));
  }

  /** It stands for the last enabled CPU row, or for an invented one, and loads
      no layers. */
  lemma CpuSlotMeans(devices: seq<Device>, b: Build, s: Slot)
    requires s in Slots(devices, b) && s.family == CpuRole
    ensures s.id == "cpu-0" && s.priority == 90 && s.cudaVisible == [] && s.tpGroup == None && |s.card.devices| == 1
    ensures var d := s.card.devices[0];
      s.card == VirtualCard([PoolDevice(d.id, Cpu, d.name, 0, None)], CpuOnly, 0, [], [], false, 0)
    ensures (forall d :: d in devices && d.enabled ==> RoleOf(d) != CpuRole) ==> s.card.devices[0].id == "cpu:0"
    ensures forall p :: 0 <= p < |devices| && LastEnabledCpu(devices, p) ==>
      s.card.devices[0].id == devices[p].id && s.card.devices[0].name == devices[p].name
  {
    CpuSlotsAreCpu(devices, b);
    CpuListed(devices);
  }

  predicate LastEnabledCpu(devices: seq<Device>, p: nat)
    requires p < |devices|
  {
    devices[p].enabled && RoleOf(devices[p]) == CpuRole
    && forall q :: p < q < |devices| && devices[q].enabled ==> RoleOf(devices[q]) != CpuRole
  }

  lemma MetalListed(devices: seq<Device>)
    ensures All(devices, MetalRole) != [] <==>
      exists d :: d in devices && d.enabled && (d.kind == MetalKind || "metal:" <= d.id)
  {
    PickedMeans(devices, MetalRole, |devices|);
    if All(devices, MetalRole) != [] {
      var x := All(devices, MetalRole)[0];
      assert IsRow(devices, MetalRole, |devices|, x);
      assert x.device in devices;
    }
    if d :| d in devices && d.enabled && (d.kind == MetalKind || "metal:" <= d.id) {
      var p :| 0 <= p < |devices| && devices[p] == d;
      assert IsRow(devices, MetalRole, |devices|, Row(p, d));
    }
  }

  lemma CpuListed(devices: seq<Device>)
    ensures (forall d :: d in devices && d.enabled ==> RoleOf(d) != CpuRole) ==> LastCpu(devices) == None
    ensures forall p :: 0 <= p < |devices| && LastEnabledCpu(devices, p) ==> LastCpu(devices) == Some(Row(p, devices[p]))
  {
    PickedMeans(devices, CpuRole, |devices|);
    var rows := All(devices, CpuRole);
    if rows != [] {
      var x := rows[|rows| - 1];
      assert IsRow(devices, CpuRole, |devices|, x);
      assert x.device in devices;
    }
    forall p | 0 <= p < |devices| && LastEnabledCpu(devices, p)
      ensures LastCpu(devices) == Some(Row(p, devices[p]))
    {
      assert IsRow(devices, CpuRole, |devices|, Row(p, devices[p]));
      var i :| 0 <= i < |rows| && rows[i] == Row(p, devices[p]);
    }
  }

  predicate Served(r: Role, b: Build) { r.CudaRole? || (r.MetalRole? && b.metal) || (r in {VulkanRole, IgpuRole} && b.vulkan) }

  lemma InSomes(x: Row, rows: seq<Row>)
    requires x in rows
    ensures Some(x) in Somes(rows)
  {
    var i :| 0 <= i < |rows| && rows[i] == x;
    assert Somes(rows)[i] == Some(x);
  }

  /** No enabled accelerator with a runtime is left without a slot. */
  lemma EveryServedDeviceBacks(devices: seq<Device>, b: Build, p: nat)
    requires p < |devices| && devices[p].enabled && Served(RoleOf(devices[p]), b)
    ensures Some(Row(p, devices[p])) in Backing(devices, b)
  {
    var x, r := Row(p, devices[p]), RoleOf(devices[p]);
    PickedMeans(devices, r, |devices|);
    assert IsRow(devices, r, |devices|, x);
    if r.CudaRole? {
      SortedRowsAreRows(devices);
      InSomes(x, CudaRows(devices));
    } else {
      InSomes(x, All(devices, r));
    }
  }

  /** CUDA slots come first, larger before smaller and lower index first on a
      tie, all in the tensor-parallel group or none; nothing else is grouped. */
  lemma CudaSlotsOrderedAndGrouped(devices: seq<Device>, b: Build, i: nat, j: nat)
    requires i < j < |Slots(devices, b)|
    ensures var s, t := Slots(devices, b)[i], Slots(devices, b)[j];
      && (t.family.CudaRole? ==> CudaOrder(s, t))
      && t.tpGroup == (if t.family.CudaRole? then TpGroup(All(devices, CudaRole)) else None)
      && s.tpGroup == (if s.family.CudaRole? then TpGroup(All(devices, CudaRole)) else None)
  {
    var n := |CudaRows(devices)|;
    SortedRowsAreRows(devices);
    forall k: nat | k < |Slots(devices, b)| ensures GroupedAs(Slots(devices, b)[k], All(devices, CudaRole), k < n) {
      if k >= n { BeyondCuda(devices, b, k); }
    }
    assert GroupedAs(Slots(devices, b)[i], All(devices, CudaRole), i < n);
    assert GroupedAs(Slots(devices, b)[j], All(devices, CudaRole), j < n);
    if j < n { assert Before(CudaRows(devices)[i].device, CudaRows(devices)[j].device); }
  }

  predicate CudaOrder(s: Slot, t: Slot)
  {
    && s.family.CudaRole? && |s.cudaVisible| == |t.cudaVisible| == 1
    && (s.card.totalVram > t.card.totalVram || (s.card.totalVram == t.card.totalVram && s.cudaVisible[0] <= t.cudaVisible[0]))
  }

  predicate GroupedAs(s: Slot, cuda: seq<Row>, isCuda: bool)
  {
    s.family.CudaRole? == isCuda && s.tpGroup == if isCuda then TpGroup(cuda) else None
  }

  lemma BeyondCuda(devices: seq<Device>, b: Build, k: nat)
    requires |CudaRows(devices)| <= k < |Slots(devices, b)|
    ensures !Slots(devices, b)[k].family.CudaRole? && Slots(devices, b)[k].tpGroup == None
  {
    var s := Slots(devices, b)[k];
    var rest := GpuFamilies(devices, b) + CpuSlots(devices, b);
    assert s == rest[k - |CudaRows(devices)|];
    UngroupedGpu(MetalRole, GpuRows(devices, b.metal, MetalRole));
    UngroupedGpu(VulkanRole, GpuRows(devices, b.vulkan, VulkanRole));
    UngroupedGpu(IgpuRole, GpuRows(devices, b.vulkan, IgpuRole));
  }

  lemma UngroupedGpu(r: Role, rows: seq<Row>)
    ensures forall s :: s in GpuSlots(r, rows) ==> s.family == r && s.tpGroup == None
  {
  }

  // ---- the tensor-parallel card ----

  function SumReal(v: seq<real>): real { if v == [] then 0.0 else v[0] + SumReal(v[1..]) }

  function VramProportions(vrams: seq<nat>): seq<real>
  {
    var total := Max(Sum(vrams), 1) as real;
    seq(|vrams|, k requires 0 <= k < |vrams| => vrams[k] as real / total)
  }

  lemma {:induction false} SharesAddUp(vrams: seq<nat>, total: real, shares: seq<real>)
    requires total > 0.0 && |shares| == |vrams| && forall k :: 0 <= k < |vrams| ==> shares[k] == vrams[k] as real / total
    ensures SumReal(shares) == Sum(vrams) as real / total
  {
    if vrams != [] { SharesAddUp(vrams[1..], total, shares[1..]); }
  }

  /** The split fractions add up to one as soon as any card has memory. */
  lemma ProportionsSumToOneIff(vrams: seq<nat>)
    ensures SumReal(VramProportions(vrams)) == 1.0 <==> Sum(vrams) > 0
  {
    var total := Max(Sum(vrams), 1);
    SharesAddUp(vrams, total as real, VramProportions(vrams));
    WholeOfTotal(Sum(vrams), total);
  }

  lemma WholeOfTotal(sum: nat, total: nat)
    requires total == Max(sum, 1)
    ensures sum as real / total as real == 1.0 <==> sum > 0
  {
  }

  function CudaKeys(devices: seq<Device>): seq<Option<nat>>
  {
    seq(|devices|, p requires 0 <= p < |devices| => ParseCudaIndex(devices[p].id))
  }

  /** The first row anywhere in the list with that CUDA index, enabled or not. */
  function FirstWith(keys: seq<Option<nat>>, idx: nat): (r: Option<nat>)
    ensures r.Some? ==> r.value < |keys| && keys[r.value] == Some(idx) && Some(idx) !in keys[..r.value]
    ensures r.None? ==> Some(idx) !in keys
  {
    if keys == [] then None
    else if keys[0] == Some(idx) then Some(0)
    else
      var r := FirstWith(keys[1..], idx);
      if r.Some? then
        assert keys[..r.value + 1] == [keys[0]] + keys[1..][..r.value];
        Some(r.value + 1)
      else None
  }

  function FindCuda(devices: seq<Device>, idx: nat): (r: Option<nat>)
    ensures r.Some? ==> r.value < |devices|
  {
    FirstWith(CudaKeys(devices), idx)
  }

  /** Worker-local numbering: the k-th card is llama's device k. */
  predicate Listed(pool: seq<PoolDevice>, found: seq<Device>)
  {
    && |pool| == |found|
    && forall k :: 0 <= k < |found| ==> pool[k] == AsPoolDevice(found[k], EffectiveVram(found[k]), Some(k))
  }

  predicate ListsDevices(card: VirtualCard, found: seq<Device>)
  {
    && Listed(card.devices, found) && card.strategy.TensorParallel? && card.cudaIds == seq(|found|, i => i)
    && !card.usesVulkan && card.totalVram == Sum(DeviceVrams(found)) && card.tensorSplit == VramProportions(DeviceVrams(found))
  }

  function DeviceVrams(found: seq<Device>): seq<nat>
  {
    seq(|found|, k requires 0 <= k < |found| => EffectiveVram(found[k]))
  }

  function TpCard(pool: seq<PoolDevice>, vrams: seq<nat>): (card: VirtualCard)
    ensures card.devices == pool && card.strategy.TensorParallel? && card.cudaIds == seq(|pool|, i => i)
    ensures card.totalVram == Sum(vrams) && card.tensorSplit == VramProportions(vrams) && !card.usesVulkan
  {
    CardForDevices(pool, TensorParallel, Sum(vrams), VramProportions(vrams), seq(|pool|, i => i), false)
  }

  /** The group's layer budget is that of its largest card. */
  predicate BudgetOfLargest(card: VirtualCard, found: seq<Device>)
  {
    exists k :: 0 <= k < |found| && card.layerBudget == Ladder.OffloadLayerBudget(EffectiveVram(found[k]))
      && forall j :: 0 <= j < |found| ==> EffectiveVram(found[j]) <= EffectiveVram(found[k])
  }

  lemma {:induction false} AllCuda(pool: seq<PoolDevice>, vrams: seq<nat>)
    requires |pool| == |vrams| && forall k :: 0 <= k < |pool| ==> pool[k].cudaIndex.Some? && pool[k].vram == vrams[k]
    ensures CudaVrams(pool) == vrams
  {
    if pool != [] { AllCuda(pool[1..], vrams[1..]); }
  }

  lemma TpBudget(pool: seq<PoolDevice>, found: seq<Device>)
    requires Listed(pool, found) && found != []
    ensures BudgetOfLargest(TpCard(pool, DeviceVrams(found)), found)
  {
    var vrams := DeviceVrams(found);
    AllCuda(pool, vrams);
    ExtremesAttained(vrams);
    var k :| 0 <= k < |vrams| && vrams[k] == MaxOf(vrams);
    forall j | 0 <= j < |found| ensures EffectiveVram(found[j]) <= EffectiveVram(found[k]) { assert vrams[j] in vrams; }
  }

  /** `found` is what each index resolved to. */
  method BuildTpCardForGroup(devices: seq<Device>, ids: seq<nat>) returns (r: Option<VirtualCard>, ghost found: seq<Device>)
    ensures r.None? <==> exists k :: 0 <= k < |ids| && FindCuda(devices, ids[k]).None?
    ensures r.Some? ==> ListsDevices(r.value, found) && Resolves(devices, ids, found)
    ensures r.Some? && found != [] ==> BudgetOfLargest(r.value, found)
  {
    var pool: seq<PoolDevice>, vrams: seq<nat> := [], [];
    found := [];
    for k := 0 to |ids|
      invariant Resolves(devices, ids[..k], found) && vrams == DeviceVrams(found) && Listed(pool, found)
    {
      var p := FindCuda(devices, ids[k]);
      if p.None? {
        return None, found;
      }
      var d := devices[p.value];
      assert ids[..k + 1] == ids[..k] + [ids[k]];
      ResolvePush(devices, ids[..k], found, ids[k]);
      ListPush(pool, found, d);
      pool := pool + [AsPoolDevice(d, EffectiveVram(d), Some(|pool|))];
      vrams := vrams + [EffectiveVram(d)];
      found := found + [d];
    }
    assert ids[..|ids|] == ids;
    if found != [] { TpBudget(pool, found); }
    r := Some(TpCard(pool, vrams));
  }

  predicate ResolvesTo(devices: seq<Device>, idx: nat, d: Device)
  {
    FindCuda(devices, idx).Some? && devices[FindCuda(devices, idx).value] == d
  }

  predicate Resolves(devices: seq<Device>, ids: seq<nat>, found: seq<Device>)
  {
    |found| == |ids| && forall k :: 0 <= k < |ids| ==> ResolvesTo(devices, ids[k], found[k])
  }

  lemma ResolvePush(devices: seq<Device>, ids: seq<nat>, found: seq<Device>, idx: nat)
    requires Resolves(devices, ids, found) && FindCuda(devices, idx).Some?
    ensures Resolves(devices, ids + [idx], found + [devices[FindCuda(devices, idx).value]])
  {
  }

  lemma ListPush(pool: seq<PoolDevice>, found: seq<Device>, d: Device)
    requires Listed(pool, found)
    ensures Listed(pool + [AsPoolDevice(d, EffectiveVram(d), Some(|pool|))], found + [d])
    ensures DeviceVrams(found + [d]) == DeviceVrams(found) + [EffectiveVram(d)]
  {
  }

  lemma FirstWithIff(keys: seq<Option<nat>>, p: nat, idx: nat)
    requires p < |keys| && keys[p] == Some(idx)
    ensures FirstWith(keys, idx) == Some(p) <==> Some(idx) !in keys[..p]
  {
    assert keys[p] in keys;
    var q := FirstWith(keys, idx).value;
    if q < p { assert keys[..p][q] == Some(idx); }
  }

  lemma CudaRowHasKey(d: Device)
    requires RoleOf(d).CudaRole?
    ensures ParseCudaIndex(d.id) == Some(CudaIndex(d)) && EffectiveVram(d) > 0
  {
  }

  /** No row before an enabled CUDA card, whatever it is, parses to its index. */
  predicate Unshadowed(devices: seq<Device>)
  {
    forall x :: x in All(devices, CudaRole) ==> Some(CudaIndex(x.device)) !in CudaKeys(devices)[..Min(x.pos, |devices|)]
  }

  lemma FindCudaFindsRowIff(devices: seq<Device>, x: Row)
    requires IsRow(devices, CudaRole, |devices|, x)
    ensures FindCuda(devices, CudaIndex(x.device)) == Some(x.pos) <==>
      Some(CudaIndex(x.device)) !in CudaKeys(devices)[..x.pos]
  {
    CudaRowHasKey(x.device);
    assert CudaKeys(devices)[x.pos] == ParseCudaIndex(x.device.id);
    FirstWithIff(CudaKeys(devices), x.pos, CudaIndex(x.device));
  }

  predicate FindsOwnRow(devices: seq<Device>, x: Row) { FindCuda(devices, CudaIndex(x.device)) == Some(x.pos) }

  /** Every index of the group leads back to its own enabled row exactly when no
      such row is shadowed. */
  lemma GroupResolvesIff(devices: seq<Device>)
    ensures (forall x :: x in All(devices, CudaRole) ==> FindsOwnRow(devices, x)) <==> Unshadowed(devices)
  {
    PickedMeans(devices, CudaRole, |devices|);
    forall x | x in All(devices, CudaRole)
      ensures FindsOwnRow(devices, x) <==> Some(CudaIndex(x.device)) !in CudaKeys(devices)[..Min(x.pos, |devices|)]
    {
      assert IsRow(devices, CudaRole, |devices|, x);
      FindCudaFindsRowIff(devices, x);
    }
  }

  /** Distinct ids over the whole list are enough for that. */
  lemma DistinctIdsAreUnshadowed(devices: seq<Device>)
    requires forall p, q :: 0 <= p < q < |devices| && CudaKeys(devices)[p].Some? ==> CudaKeys(devices)[p] != CudaKeys(devices)[q]
    ensures Unshadowed(devices)
  {
    PickedMeans(devices, CudaRole, |devices|);
    forall x | x in All(devices, CudaRole) ensures Some(CudaIndex(x.device)) !in CudaKeys(devices)[..Min(x.pos, |devices|)] {
      assert IsRow(devices, CudaRole, |devices|, x);
      CudaRowHasKey(x.device);
      assert CudaKeys(devices)[x.pos] == Some(CudaIndex(x.device));
    }
  }

  /** The card built from the plan's group drives exactly the enabled CUDA
      cards, in device order, and its split adds up to one. */
  lemma TpCardIsTheGroup(devices: seq<Device>, card: VirtualCard, found: seq<Device>)
    requires Unshadowed(devices) && Homogeneous(All(devices, CudaRole))
    requires Resolves(devices, Indices(All(devices, CudaRole)), found) && ListsDevices(card, found)
    ensures |found| == |All(devices, CudaRole)| >= 2
    ensures forall k :: 0 <= k < |found| ==> found[k] == All(devices, CudaRole)[k].device
    ensures SumReal(card.tensorSplit) == 1.0
  {
    var rows := All(devices, CudaRole);
    AtLeastTwo(rows);
    forall k | 0 <= k < |found| ensures found[k] == rows[k].device {
      ResolvedRow(devices, found, k);
    }
    ResolvedRow(devices, found, 0);
    SomeMemory(rows[0], found);
  }

  lemma AtLeastTwo(rows: seq<Row>)
    requires Homogeneous(rows)
    ensures |rows| >= 2
  {
  }

  lemma ResolvedRow(devices: seq<Device>, found: seq<Device>, k: nat)
    requires Unshadowed(devices) && Resolves(devices, Indices(All(devices, CudaRole)), found) && k < |found|
    ensures found[k] == All(devices, CudaRole)[k].device && RoleOf(found[k]).CudaRole?
  {
    var rows := All(devices, CudaRole);
    PickedMeans(devices, CudaRole, |devices|);
    GroupResolvesIff(devices);
    assert rows[k] in rows && FindsOwnRow(devices, rows[k]);
    assert ResolvesTo(devices, Indices(rows)[k], found[k]);
  }

  lemma SomeMemory(x: Row, found: seq<Device>)
    requires found != [] && found[0] == x.device && RoleOf(x.device).CudaRole?
    ensures SumReal(VramProportions(DeviceVrams(found))) == 1.0
  {
    CudaRowHasKey(x.device);
    assert DeviceVrams(found)[0] > 0;
    ProportionsSumToOneIff(DeviceVrams(found));
  }

  lemma TwoPicked(off: Device, on: Device, next: Device)
    requires !off.enabled && on.enabled && next.enabled && RoleOf(on).CudaRole? && RoleOf(next).CudaRole?
    ensures All([off, on, next], CudaRole) == [Row(1, on), Row(2, next)]
  {
    var devices := [off, on, next];
    assert Picked(devices, CudaRole, 1) == Picked(devices, CudaRole, 0) == [];
    assert Picked(devices, CudaRole, 2) == [Row(1, on)];
  }

  lemma PrintedCudaIndex(n: U32)
    ensures ParseCudaIndex("nvidia:" + Decimal(n)) == Some(n) && !StartsWith("nvidia:" + Decimal(n), "metal:")
  {
    var id := "nvidia:" + Decimal(n);
    assert id[..7] == "nvidia:" && id[7..] == Decimal(n) && id[..6][0] == 'n';
    ParseInvertsPrinting(n);
  }

  /** A shadowed list exists in which the group card claims a disabled card. */
  lemma DisabledTwinIsClaimed(name: string, sku: string, vram: nat) returns (devices: seq<Device>)
    requires sku != ""
    ensures FindCuda(devices, 0) == Some(0) && |devices| > 0 && !devices[0].enabled
    ensures Homogeneous(All(devices, CudaRole)) && Indices(All(devices, CudaRole)) == [0, 1] && !Unshadowed(devices)
  {
    var on := Device("nvidia:" + Decimal(0), Discrete, name, sku, false, Some(vram), true);
    var off, next := on.(enabled := false), on.(id := "nvidia:" + Decimal(1));
    devices := [off, on, next];
    PrintedCudaIndex(0);
    PrintedCudaIndex(1);
    TwoPicked(off, on, next);
    assert CudaKeys(devices)[0] == Some(0) && CudaKeys(devices)[..1][0] == Some(0);
    assert Row(1, on) in All(devices, CudaRole);
    var rows := All(devices, CudaRole);
    assert Skus(rows) == [sku, sku] && Vrams(rows) == [EffectiveVram(on), EffectiveVram(on)];
    HomogeneousIff(Skus(rows), Vrams(rows));
  }
}
