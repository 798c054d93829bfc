/** Is a Diffusers snapshot complete? The Rust agent advertises a model when its
    own check says so; the Python worker refuses to run when its check says no. */
module Snapshot {
  import opened Base
  import opened ShardNames

  datatype Json = Text(s: string) | Array | Object(fields: seq<(string, Json)>) | Scalar

  /** `json` is the parsed content when it parses, `text` the trimmed content. */
  datatype Node =
    | File(size: nat, text: Option<string>, json: Option<Json>)
    | Dir(entries: seq<Entry>)
    | Broken

  datatype Entry = Entry(name: string, node: Node)

  /** The two programs. */
  datatype Lang = Rust | Python

  // ---- shared vocabulary ----

  predicate RealFile(n: Option<Node>) { n.Some? && n.value.File? && n.value.size > 0 }

  function Lookup(es: seq<Entry>, name: string): (r: Option<Node>)
    ensures r.Some? ==> exists e :: e in es && e.name == name && e.node == r.value
  {
    if es == [] then None else if es[0].name == name then Some(es[0].node) else Lookup(es[1..], name)
  }

  function Child(n: Node, name: string): Option<Node> { if n.Dir? then Lookup(n.entries, name) else None }

  function Field(fields: seq<(string, Json)>, key: string): Option<Json>
  {
    if fields == [] then None else if fields[0].0 == key then Some(fields[0].1) else Field(fields[1..], key)
  }

  predicate WeightExtension(lower: string)
  {
    EndsWith(lower, ".safetensors") || EndsWith(lower, ".bin") || EndsWith(lower, ".pt") || EndsWith(lower, ".ckpt")
    || EndsWith(lower, ".gguf")
  }

  predicate IsWeightFilename(name: string)
  {
    !EndsWith(Lower(name), ".incomplete") && !EndsWith(Lower(name), ".index.json") && WeightExtension(Lower(name))
  }

  // ---- the file part of a path ----

  /** The last segment that is neither empty nor a dot. */
  function LastSegment(s: string, n: nat, end: nat): Option<string>
    requires n <= end <= |s|
    decreases n
  {
    if n == 0 || s[n - 1] == '/' then
      var seg := s[n..end];
      if seg != "" && seg != "." then Some(seg)
      else if n == 0 then None
      else LastSegment(s, n - 1, n - 1)
    else LastSegment(s, n - 1, end)
  }

  lemma {:induction false} SegmentOfFront(s: string, t: string, n: nat, end: nat)
    requires n <= end <= |s|
    ensures LastSegment(s + t, n, end) == LastSegment(s, n, end)
    decreases n
  {
    assert (s + t)[n..end] == s[n..end];
    if n > 0 {
      SegmentOfFront(s, t, n - 1, n - 1);
      SegmentOfFront(s, t, n - 1, end);
    }
  }

  lemma NoSegment(s: string, n: nat)
    requires 0 < n <= |s| && s[n - 1] == '/' && (s[n..] == "" || s[n..] == ".")
    ensures LastSegment(s, n, |s|) == LastSegment(s, n - 1, n - 1)
  {
    assert s[n..|s|] == s[n..];
  }

  /** A trailing slash or dot segment does not count. */
  lemma TrailingSlash(s: string)
    ensures LastSegment(s + "/", |s| + 1, |s| + 1) == LastSegment(s, |s|, |s|)
  {
    NoSegment(s + "/", |s| + 1);
    SegmentOfFront(s, "/", |s|, |s|);
  }

  lemma TrailingDot(s: string)
    ensures LastSegment(s + "/.", |s| + 2, |s| + 2) == LastSegment(s, |s|, |s|)
  {
    var dot := s + "/.";
    assert dot[|s| + 1] == '.' && dot[|s| + 1..] == ".";
    assert LastSegment(dot, |s| + 2, |s| + 2) == LastSegment(dot, |s| + 1, |s| + 2);
    NoSegment(dot, |s| + 1);
    SegmentOfFront(s, "/.", |s|, |s|);
  }

  predicate Blank(s: string) { forall c :: c in s ==> IsSpace(c) }

  /** What one `weight_map` value adds to the listed names: `file_name()`, or
      `Path(rel).name` when the value is not blank. */
  function BaseName(l: Lang, s: string): Option<string>
  {
    var last := LastSegment(s, |s|, |s|);
    if l.Rust? then (if last == Some("..") then None else last)
    else if Blank(s) then None
    else if last.None? then Some("") else last
  }

  predicate RegularRef(s: string)
  {
    var last := LastSegment(s, |s|, |s|);
    if Blank(s) then last.None? || last.value == ".." else last.Some? && last.value != ".."
  }

  lemma BaseNamesAgreeIff(s: string)
    ensures BaseName(Rust, s) == BaseName(Python, s) <==> RegularRef(s)
  {
  }

  function ParseShard(l: Lang, name: string): Option<Shard>
  {
    if l.Rust? then ParseShardName(name) else PyShardName(name)
  }

  // ---- what completeness means ----

  function BaseNames(l: Lang, fields: seq<(string, Json)>): set<string>
  {
    if fields == [] then {}
    else
      var last := fields[|fields| - 1].1;
      BaseNames(l, fields[..|fields| - 1])
      + if last.Text? && BaseName(l, last.s).Some? then {BaseName(l, last.s).value} else {}
  }

  function WeightMap(e: Entry): seq<(string, Json)>
  {
    if EndsWith(e.name, ".index.json") && e.node.File? && e.node.json.Some? && e.node.json.value.Object? then
      var weights := Field(e.node.json.value.fields, "weight_map");
      if weights.Some? && weights.value.Object? then weights.value.fields else []
    else []
  }

  function Listed(l: Lang, es: seq<Entry>): set<string>
  {
    if es == [] then {} else Listed(l, es[..|es| - 1]) + BaseNames(l, WeightMap(es[|es| - 1]))
  }

  function ShardOf(l: Lang, e: Entry): Option<Shard>
  {
    if RealFile(Some(e.node)) then ParseShard(l, e.name) else None
  }

  function Shards(l: Lang, es: seq<Entry>): set<Shard>
  {
    if es == [] then {}
    else
      var shard := ShardOf(l, es[|es| - 1]);
      Shards(l, es[..|es| - 1]) + if shard.Some? then {shard.value} else {}
  }

  /** Every group with one shard has all its shards. */
  predicate Closed(shards: set<Shard>)
  {
    forall s :: s in shards ==> forall i :: 1 <= i <= s.n ==> Shard(s.prefix, i, s.n) in shards
  }

  predicate IsWeight(e: Entry) { WeightExtension(Lower(e.name)) && RealFile(Some(e.node)) }

  predicate AnyWeight(es: seq<Entry>) { exists e :: e in es && IsWeight(e) }

  /** A folder is complete when the files its index lists are there, else when
      its shard groups are closed, else when it holds a weight file or a
      complete folder. */
  predicate Complete(l: Lang, n: Node)
  {
    n.Dir?
    && var es := n.entries;
       if Listed(l, es) != {} then forall name :: name in Listed(l, es) ==> RealFile(Lookup(es, name))
       else if Shards(l, es) != {} then Closed(Shards(l, es))
       else AnyWeight(es) || exists e :: e in es && Complete(l, e.node)
  }

  const WEIGHT_COMPONENTS: seq<string> :=
    ["transformer", "unet", "vae", "text_encoder", "text_encoder_2", "text_encoder_3", "image_encoder", "visual"]

  predicate Component(field: (string, Json)) { field.1.Array? && field.0 in WEIGHT_COMPONENTS }

  predicate AnyComponent(fields: seq<(string, Json)>) { exists f :: f in fields && Component(f) }

  predicate AllReady(l: Lang, snap: Node, fields: seq<(string, Json)>)
  {
    forall f :: f in fields && Component(f) ==> ComponentReady(l, snap, f.0)
  }

  function ModelIndex(snap: Node): Option<Json>
  {
    var index := Child(snap, "model_index.json");
    if index.Some? && index.value.File? then index.value.json else None
  }

  predicate ComponentReady(l: Lang, snap: Node, key: string)
  {
    var folder := Child(snap, key);
    folder.Some? && Complete(l, folder.value)
  }

  predicate Ready(l: Lang, snap: Node)
  {
    var index := ModelIndex(snap);
    && index.Some? && index.value.Object?
    && var fields := index.value.fields;
       if AnyComponent(fields) then AllReady(l, snap, fields) else Complete(l, snap)
  }

  // ---- the two checks agree on regular trees ----

  predicate RegularEntry(e: Entry)
  {
    && (RealFile(Some(e.node)) ==> RegularShard(e.name))
    && forall f :: f in WeightMap(e) && f.1.Text? ==> RegularRef(f.1.s)
  }

  predicate RegularTree(n: Node)
  {
    n.Dir? ==> forall e :: e in n.entries ==> RegularEntry(e) && RegularTree(e.node)
  }

  lemma {:induction false} BaseNamesAgree(fields: seq<(string, Json)>)
    requires forall f :: f in fields && f.1.Text? ==> RegularRef(f.1.s)
    ensures BaseNames(Rust, fields) == BaseNames(Python, fields)
  {
    if fields != [] {
      BaseNamesAgree(fields[..|fields| - 1]);
      var last := fields[|fields| - 1];
      if last.1.Text? { BaseNamesAgreeIff(last.1.s); }
    }
  }

  lemma {:induction false} ListedAgree(es: seq<Entry>)
    requires forall e :: e in es ==> RegularEntry(e)
    ensures Listed(Rust, es) == Listed(Python, es)
  {
    if es != [] {
      assert RegularEntry(es[|es| - 1]);
      ListedAgree(es[..|es| - 1]);
      BaseNamesAgree(WeightMap(es[|es| - 1]));
    }
  }

  lemma {:induction false} ShardsAgree(es: seq<Entry>)
    requires forall e :: e in es && RealFile(Some(e.node)) ==> RegularShard(e.name)
    ensures Shards(Rust, es) == Shards(Python, es)
  {
    if es != [] {
      var last := es[|es| - 1];
      ShardsAgree(es[..|es| - 1]);
      if RealFile(Some(last.node)) { ShardNamesAgreeIff(last.name); }
    }
  }

  lemma {:induction false} CompleteAgree(n: Node)
    requires RegularTree(n)
    ensures Complete(Rust, n) == Complete(Python, n)
  {
    if n.Dir? {
      ListedAgree(n.entries);
      ShardsAgree(n.entries);
      forall e | e in n.entries ensures Complete(Rust, e.node) == Complete(Python, e.node) {
        CompleteAgree(e.node);
      }
    }
  }

  /** What the agent calls ready the worker never calls incomplete, nor the
      other way round. */
  lemma ChecksAgree(snap: Node)
    requires RegularTree(snap)
    ensures Ready(Rust, snap) == Ready(Python, snap)
  {
    CompleteAgree(snap);
    forall key ensures ComponentReady(Rust, snap, key) == ComponentReady(Python, snap, key) {
      if Child(snap, key).Some? {
        ChildOfRegular(snap, key);
        CompleteAgree(Child(snap, key).value);
      }
    }
  }

  lemma ChildOfRegular(n: Node, name: string)
    requires RegularTree(n) && Child(n, name).Some?
    ensures RegularTree(Child(n, name).value)
  {
  }

  // ---- the checks as the programs run them ----

  method IndexListedShards(l: Lang, es: seq<Entry>) returns (names: set<string>)
    ensures names == Listed(l, es)
  {
    names := {};
    for i := 0 to |es|
      invariant names == Listed(l, es[..i])
    {
      assert es[..i + 1][..i] == es[..i];
      var found := NamesIn(l, WeightMap(es[i]));
      names := names + found;
    }
    assert es[..|es|] == es;
  }

  method NamesIn(l: Lang, fields: seq<(string, Json)>) returns (names: set<string>)
    ensures names == BaseNames(l, fields)
  {
    names := {};
    for k := 0 to |fields|
      invariant names == BaseNames(l, fields[..k])
    {
      assert fields[..k + 1][..k] == fields[..k];
      var value := fields[k].1;
      if value.Text? && BaseName(l, value.s).Some? {
        names := names + {BaseName(l, value.s).value};
      }
    }
    assert fields[..|fields|] == fields;
  }

  type Groups = map<(string, nat), set<nat>>

  predicate GroupsHold(groups: Groups, shards: set<Shard>)
  {
    && (forall s :: s in shards ==> (s.prefix, s.n) in groups && s.idx in groups[(s.prefix, s.n)])
    && (forall k :: k in groups ==> groups[k] != {} && forall i :: i in groups[k] ==> Shard(k.0, i, k.1) in shards)
  }

  function AddShard(groups: Groups, shard: Option<Shard>): Groups
  {
    if shard.None? then groups
    else
      var s := shard.value;
      var k := (s.prefix, s.n);
      groups[k := (if k in groups then groups[k] else {}) + {s.idx}]
  }

  lemma AddShardHolds(groups: Groups, shards: set<Shard>, s: Shard)
    requires GroupsHold(groups, shards)
    ensures GroupsHold(AddShard(groups, Some(s)), shards + {s})
  {
  }

  lemma NextEntryHolds(l: Lang, es: seq<Entry>, i: nat, groups: Groups)
    requires i < |es| && GroupsHold(groups, Shards(l, es[..i]))
    ensures GroupsHold(AddShard(groups, ShardOf(l, es[i])), Shards(l, es[..i + 1]))
  {
    assert es[..i + 1][..i] == es[..i];
    var shard := ShardOf(l, es[i]);
    if shard.Some? { AddShardHolds(groups, Shards(l, es[..i]), shard.value); }
  }

  predicate GroupsComplete(groups: Groups) { forall k :: k in groups ==> forall i :: 1 <= i <= k.1 ==> i in groups[k] }

  lemma GroupsCompleteIff(groups: Groups, shards: set<Shard>)
    requires GroupsHold(groups, shards)
    ensures groups == map[] <==> shards == {}
    ensures GroupsComplete(groups) <==> Closed(shards)
  {
    if GroupsComplete(groups) {
      forall s, i | s in shards && 1 <= i <= s.n ensures Shard(s.prefix, i, s.n) in shards {
        assert i in groups[(s.prefix, s.n)];
      }
    }
    if Closed(shards) {
      forall k, i: nat | k in groups && 1 <= i <= k.1 ensures i in groups[k] {
        var j :| j in groups[k];
        assert Shard(k.0, j, k.1) in shards && Shard(k.0, i, k.1) in shards;
      }
    }
    if groups != map[] {
      var k :| k in groups;
      var j :| j in groups[k];
      assert Shard(k.0, j, k.1) in shards;
    }
  }

  lemma LastTwo(s: string, suffix: string)
    requires EndsWith(s, suffix) && |suffix| >= 2
    ensures |s| >= 2 && s[|s| - 1] == suffix[|suffix| - 1] && s[|s| - 2] == suffix[|suffix| - 2]
  {
    var tail := s[|s| - |suffix|..];
    assert tail[|suffix| - 1] == s[|s| - 1] && tail[|suffix| - 2] == s[|s| - 2];
  }

  /** A weight extension is never one of the two excluded endings. */
  lemma WeightFilenames(name: string)
    ensures IsWeightFilename(name) == WeightExtension(Lower(name))
  {
    var lower := Lower(name);
    if WeightExtension(lower) { WeightEnding(lower); }
    if EndsWith(lower, ".incomplete") { LastTwo(lower, ".incomplete"); }
    if EndsWith(lower, ".index.json") { LastTwo(lower, ".index.json"); }
  }

  lemma WeightEnding(lower: string)
    requires WeightExtension(lower)
    ensures |lower| >= 2 && lower[|lower| - 1] in "sntf" && (lower[|lower| - 1] == 'n' ==> lower[|lower| - 2] == 'i')
  {
    if EndsWith(lower, ".safetensors") { LastTwo(lower, ".safetensors"); }
    if EndsWith(lower, ".bin") { LastTwo(lower, ".bin"); }
    if EndsWith(lower, ".pt") { LastTwo(lower, ".pt"); }
    if EndsWith(lower, ".ckpt") { LastTwo(lower, ".ckpt"); }
    if EndsWith(lower, ".gguf") { LastTwo(lower, ".gguf"); }
  }

  lemma ShardsAreWeights(name: string)
    ensures ParseShardName(name).Some? ==> WeightExtension(Lower(name))
  {
    forall ext | ext in [".safetensors", ".bin", ".pt"] && EndsWith(name, ext) ensures EndsWith(Lower(name), ext) {
      LowerKeepsExtension(name, ext);
    }
  }

  /** The agent's `component_weights_complete`. */
  method ComponentWeightsComplete(dir: Node) returns (r: bool)
    ensures r == Complete(Rust, dir)
    decreases dir, 1
  {
    if !dir.Dir? {
      return false;
    }
    var es := dir.entries;
    var listed := IndexListedShards(Rust, es);
    if listed != {} {
      return forall name :: name in listed ==> RealFile(Lookup(es, name));
    }
    var groups, anyWeight, subdirs := ScanFolder(es);
    GroupsCompleteIff(groups, Shards(Rust, es));
    if groups != map[] {
      return GroupsComplete(groups);
    }
    if anyWeight {
      return true;
    }
    r := AnySubdirComplete(dir, subdirs);
  }

  method AnySubdirComplete(ghost dir: Node, subdirs: seq<Entry>) returns (r: bool)
    requires dir.Dir? && AreFolders(subdirs, dir.entries)
    ensures r <==> exists e :: e in dir.entries && Complete(Rust, e.node)
    decreases dir, 0
  {
    for i := 0 to |subdirs|
      invariant forall j :: 0 <= j < i ==> !Complete(Rust, subdirs[j].node)
    {
      assert subdirs[i] in dir.entries;
      r := ComponentWeightsComplete(subdirs[i].node);
      if r {
        return;
      }
    }
    forall e | e in dir.entries ensures !Complete(Rust, e.node) {
      if e.node.Dir? { assert e in subdirs; }
    }
    r := false;
  }

  /** One pass over the folder: shard groups, whether any weight is there, and
      the folders to look into. */
  method ScanFolder(es: seq<Entry>) returns (groups: Groups, anyWeight: bool, subdirs: seq<Entry>)
    ensures GroupsHold(groups, Shards(Rust, es)) && anyWeight == AnyWeight(es) && AreFolders(subdirs, es)
  {
    groups, anyWeight, subdirs := map[], false, [];
    for i := 0 to |es|
      invariant GroupsHold(groups, Shards(Rust, es[..i])) && anyWeight == AnyWeight(es[..i]) && AreFolders(subdirs, es[..i])
    {
      NextEntryHolds(Rust, es, i, groups);
      NextEntryScanned(es, i, subdirs);
      var weight, shard := ReadEntry(es[i]);
      if es[i].node.Dir? {
        subdirs := subdirs + [es[i]];
      }
      anyWeight := anyWeight || weight;
      groups := AddShard(groups, shard);
    }
    assert es[..|es|] == es;
  }

  ghost predicate AreFolders(subdirs: seq<Entry>, es: seq<Entry>) { forall e :: e in subdirs <==> e in es && e.node.Dir? }

  lemma NextEntryScanned(es: seq<Entry>, i: nat, subdirs: seq<Entry>)
    requires i < |es| && AreFolders(subdirs, es[..i])
    ensures AnyWeight(es[..i + 1]) <==> AnyWeight(es[..i]) || IsWeight(es[i])
    ensures AreFolders(if es[i].node.Dir? then subdirs + [es[i]] else subdirs, es[..i + 1])
  {
    assert es[..i + 1] == es[..i] + [es[i]];
  }

  /** One entry that is no folder: a weight file or not, and its shard. */
  method ReadEntry(e: Entry) returns (weight: bool, shard: Option<Shard>)
    ensures weight == IsWeight(e) && shard == ShardOf(Rust, e)
  {
    EntryRoles(e);
    if e.node.Dir? || !IsWeightFilename(e.name) || !RealFile(Some(e.node)) {
      return false, None;
    }
    return true, ParseShardName(e.name);
  }

  lemma EntryRoles(e: Entry)
    ensures IsWeight(e) <==> !e.node.Dir? && IsWeightFilename(e.name) && RealFile(Some(e.node))
    ensures ShardOf(Rust, e) == if IsWeight(e) then ParseShardName(e.name) else None
  {
    WeightFilenames(e.name);
    ShardsAreWeights(e.name);
  }

  /** The worker's `_shard_group_complete`: `None` when nothing is sharded. */
  method ShardGroupComplete(es: seq<Entry>) returns (r: Option<bool>)
    ensures r == if Shards(Python, es) == {} then None else Some(Closed(Shards(Python, es)))
  {
    var groups: Groups := map[];
    for i := 0 to |es|
      invariant GroupsHold(groups, Shards(Python, es[..i]))
    {
      NextEntryHolds(Python, es, i, groups);
      if es[i].node.Dir? || !RealFile(Some(es[i].node)) {
        continue;
      }
      groups := AddShard(groups, PyShardName(es[i].name));
    }
    assert es[..|es|] == es;
    GroupsCompleteIff(groups, Shards(Python, es));
    return if groups == map[] then None else Some(GroupsComplete(groups));
  }

  /** The worker's `component_weights_complete`. */
  method PyComponentWeightsComplete(folder: Node) returns (r: bool)
    ensures r == Complete(Python, folder)
    decreases folder, 1
  {
    if !folder.Dir? {
      return false;
    }
    var es := folder.entries;
    var listed := IndexListedShards(Python, es);
    if listed != {} {
      return forall name :: name in listed ==> RealFile(Lookup(es, name));
    }
    var grouped := ShardGroupComplete(es);
    if grouped.Some? {
      return grouped.value;
    }
    r := AnyChildComplete(folder);
  }

  method AnyChildComplete(folder: Node) returns (r: bool)
    requires folder.Dir?
    ensures r <==> AnyWeight(folder.entries) || exists e :: e in folder.entries && Complete(Python, e.node)
    decreases folder, 0
  {
    for i := 0 to |folder.entries|
      invariant forall j :: 0 <= j < i ==> !Complete(Python, folder.entries[j].node) && !IsWeight(folder.entries[j])
    {
      var child := folder.entries[i];
      assert child in folder.entries;
      if child.node.Dir? {
        r := PyComponentWeightsComplete(child.node);
        if r {
          return;
        }
      }
      if IsWeight(child) {
        return true;
      }
    }
    r := false;
  }

  /** `snapshot_components_ready` and `snapshot_weights_complete`: one loop over
      the model index, each with its own folder check. */
  method SnapshotReady(l: Lang, snap: Node) returns (r: bool)
    ensures r == Ready(l, snap)
  {
    var index := ModelIndex(snap);
    if index.None? || !index.value.Object? {
      return false;
    }
    var fields := index.value.fields;
    var saw := false;
    for i := 0 to |fields|
      invariant saw == AnyComponent(fields[..i]) && AllReady(l, snap, fields[..i])
    {
      assert fields[..i + 1] == fields[..i] + [fields[i]];
      PlainComponents(fields[i]);
      if Underscored(fields[i].0) || !fields[i].1.Array? || fields[i].0 !in WEIGHT_COMPONENTS {
        continue;
      }
      saw := true;
      var ok := FolderComplete(l, Child(snap, fields[i].0));
      if !ok {
        assert fields[i] in fields && !ComponentReady(l, snap, fields[i].0);
        return false;
      }
    }
    assert fields[..|fields|] == fields;
    if saw {
      return true;
    }
    r := FolderComplete(l, Some(snap));
  }

  predicate Underscored(key: string) { key != "" && key[0] == '_' }

  lemma PlainComponents(field: (string, Json))
    ensures Component(field) <==> !(Underscored(field.0) || !field.1.Array? || field.0 !in WEIGHT_COMPONENTS)
  {
  }

  method FolderComplete(l: Lang, folder: Option<Node>) returns (r: bool)
    ensures r == (folder.Some? && Complete(l, folder.value))
  {
    if folder.None? {
      return false;
    }
    if l.Rust? {
      r := ComponentWeightsComplete(folder.value);
    } else {
      r := PyComponentWeightsComplete(folder.value);
    }
  }

  // ---- what readiness comes to, for either program ----

  /** The index of a folder asks for an array under one of the eight names. */
  ghost predicate Wants(fields: seq<(string, Json)>, key: string)
  {
    && (exists f :: f in fields && f.0 == key && f.1 == Array)
    && key in {"transformer", "unet", "vae", "text_encoder", "text_encoder_2", "text_encoder_3", "image_encoder", "visual"}
  }

  /** Somewhere in the folder lies a file with content. */
  predicate HoldsBytes(n: Node)
  {
    n.Dir? && exists e :: e in n.entries && ((e.node.File? && e.node.size > 0) || HoldsBytes(e.node))
  }

  /** A snapshot is ready exactly when its index parses and every component it
      wants has a complete folder; one that wants none must be complete itself. */
  lemma ReadyIff(l: Lang, snap: Node, size: nat, text: Option<string>, fields: seq<(string, Json)>)
    requires Child(snap, "model_index.json") == Some(File(size, text, Some(Object(fields))))
    ensures Ready(l, snap) <==>
      if exists key :: Wants(fields, key) then
        forall key :: Wants(fields, key) ==> Child(snap, key).Some? && Complete(l, Child(snap, key).value)
      else Complete(l, snap)
  {
    forall f | f in fields ensures Component(f) ==> Wants(fields, f.0) {
    }
    forall key | Wants(fields, key) ensures Component((key, Array)) && (key, Array) in fields {
      var f :| f in fields && f.0 == key && f.1 == Array;
      assert f == (key, Array);
      WantedIsListed(key);
    }
    if exists key :: Wants(fields, key) {
      var key :| Wants(fields, key);
      assert Component((key, Array));
    }
  }

  lemma WantedIsListed(key: string)
    ensures key in WEIGHT_COMPONENTS <==>
      key in {"transformer", "unet", "vae", "text_encoder", "text_encoder_2", "text_encoder_3", "image_encoder", "visual"}
  {
    assert WEIGHT_COMPONENTS[0] == "transformer" && WEIGHT_COMPONENTS[1] == "unet" && WEIGHT_COMPONENTS[2] == "vae";
    assert WEIGHT_COMPONENTS[3] == "text_encoder" && WEIGHT_COMPONENTS[4] == "text_encoder_2";
    assert WEIGHT_COMPONENTS[5] == "text_encoder_3" && WEIGHT_COMPONENTS[6] == "image_encoder" && WEIGHT_COMPONENTS[7] == "visual";
  }

  /** A ready snapshot has such an index. */
  lemma ReadyHasIndex(l: Lang, snap: Node) returns (size: nat, text: Option<string>, fields: seq<(string, Json)>)
    requires Ready(l, snap)
    ensures Child(snap, "model_index.json") == Some(File(size, text, Some(Object(fields))))
  {
    var f := Child(snap, "model_index.json").value;
    return f.size, f.text, f.json.value.fields;
  }

  /** No program calls a folder complete that holds no content. */
  lemma {:induction false} CompleteHoldsBytes(l: Lang, n: Node)
    requires Complete(l, n)
    ensures HoldsBytes(n)
  {
    var es := n.entries;
    if Listed(l, es) != {} {
      var name :| name in Listed(l, es);
      assert RealFile(Lookup(es, name));
    } else if Shards(l, es) != {} {
      var s :| s in Shards(l, es);
      ShardsMean(l, es, s);
    } else if !AnyWeight(es) {
      var e :| e in es && Complete(l, e.node);
      CompleteHoldsBytes(l, e.node);
    }
  }

  /** The shards of a folder are its non-empty files whose names parse. */
  lemma {:induction false} ShardsMean(l: Lang, es: seq<Entry>, s: Shard)
    ensures s in Shards(l, es) <==> HasShard(l, es, s)
  {
    if es != [] {
      var front, last := es[..|es| - 1], es[|es| - 1];
      ShardsMean(l, front, s);
      assert es == front + [last];
      ShardAppends(l, front, last, s);
    }
  }

  ghost predicate IsShard(l: Lang, e: Entry, s: Shard)
  {
    e.node.File? && e.node.size > 0 && ParseShard(l, e.name) == Some(s)
  }

  ghost predicate HasShard(l: Lang, es: seq<Entry>, s: Shard) { exists e :: e in es && IsShard(l, e, s) }

  lemma ShardAppends(l: Lang, front: seq<Entry>, last: Entry, s: Shard)
    ensures HasShard(l, front + [last], s) <==> HasShard(l, front, s) || IsShard(l, last, s)
  {
    if HasShard(l, front, s) {
      var e :| e in front && IsShard(l, e, s);
      assert e in front + [last];
    }
    if IsShard(l, last, s) { assert last in front + [last]; }
  }

  /** A sharded folder without listed names is complete exactly when each shard's
      whole group is there. */
  lemma ShardedCompleteIff(l: Lang, n: Node)
    requires n.Dir? && Listed(l, n.entries) == {} && exists s :: HasShard(l, n.entries, s)
    ensures Complete(l, n) <==>
      forall s, i :: HasShard(l, n.entries, s) && 1 <= i <= s.n ==> HasShard(l, n.entries, Shard(s.prefix, i, s.n))
  {
    forall s ensures s in Shards(l, n.entries) <==> HasShard(l, n.entries, s) { ShardsMean(l, n.entries, s); }
  }

  /** A file with content and one of the five weight endings. */
  ghost predicate HoldsWeights(e: Entry)
  {
    && e.node.File? && e.node.size > 0
    && exists end :: end in {".safetensors", ".bin", ".pt", ".ckpt", ".gguf"} && EndsWith(Lower(e.name), end)
  }

  /** A plain folder is complete exactly when it holds such a file or a complete
      folder. */
  lemma PlainCompleteIff(l: Lang, n: Node)
    requires n.Dir? && Listed(l, n.entries) == {} && Shards(l, n.entries) == {}
    ensures Complete(l, n) <==> exists e :: e in n.entries && (Complete(l, e.node) || HoldsWeights(e))
  {
    forall e | e in n.entries ensures IsWeight(e) <==> HoldsWeights(e) { EndingsAre(Lower(e.name)); }
  }

  lemma EndingsAre(lower: string)
    ensures WeightExtension(lower) <==>
      exists end :: end in {".safetensors", ".bin", ".pt", ".ckpt", ".gguf"} && EndsWith(lower, end)
  {
    if WeightExtension(lower) {
      var end := if EndsWith(lower, ".safetensors") then ".safetensors" else if EndsWith(lower, ".bin") then ".bin"
        else if EndsWith(lower, ".pt") then ".pt" else if EndsWith(lower, ".ckpt") then ".ckpt" else ".gguf";
      assert end in {".safetensors", ".bin", ".pt", ".ckpt", ".gguf"} && EndsWith(lower, end);
    }
  }

  /** A file name by itself: no slash, no dot folder, no leading blank. */
  predicate PlainName(s: string) { s != "" && '/' !in s && s != "." && s != ".." && !IsSpace(s[0]) }

  lemma {:induction false} OneSegment(s: string, n: nat)
    requires PlainName(s) && n <= |s|
    ensures LastSegment(s, n, |s|) == Some(s)
  {
    if n > 0 {
      assert s[n - 1] in s;
      OneSegment(s, n - 1);
    } else {
      assert s[0..|s|] == s;
    }
  }

  lemma PlainBaseName(l: Lang, s: string)
    requires PlainName(s)
    ensures BaseName(l, s) == Some(s)
  {
    OneSegment(s, |s|);
    assert s[0] in s;
  }

  /** Behind any folder the file name is what is listed. */
  lemma NameBehindSlash(l: Lang, dir: string, name: string)
    requires PlainName(name)
    ensures BaseName(l, dir + "/" + name) == Some(name)
  {
    var s := dir + "/" + name;
    SegmentToSlash(s, |dir| + 1, |s|);
    assert s[|dir| + 1..] == name && s[|dir| + 1] == name[0];
    assert name[0] in s;
  }

  lemma {:induction false} SegmentToSlash(s: string, at: nat, n: nat)
    requires 0 < at <= n <= |s| && s[at - 1] == '/' && PlainName(s[at..])
    ensures LastSegment(s, n, |s|) == Some(s[at..])
    decreases n
  {
    if n > at {
      assert s[n - 1] == s[at..][n - 1 - at] && s[n - 1] in s[at..];
      SegmentToSlash(s, at, n - 1);
    } else {
      assert s[at..|s|] == s[at..];
    }
  }

  /** What an index file maps: its `weight_map`, and nothing for other files. */
  lemma WeightMapMeans(e: Entry, size: nat, text: Option<string>, more: seq<(string, Json)>, weights: seq<(string, Json)>)
    requires e.node == File(size, text, Some(Object([("weight_map", Object(weights))] + more)))
    ensures EndsWith(e.name, ".index.json") ==> WeightMap(e) == weights
    ensures !EndsWith(e.name, ".index.json") ==> WeightMap(e) == []
  {
  }

  ghost predicate Maps(es: seq<Entry>, name: string)
  {
    exists e, f :: e in es && f in WeightMap(e) && f.1 == Text(name)
  }

  lemma {:induction false} BaseNamesMean(l: Lang, fields: seq<(string, Json)>, name: string)
    requires forall f :: f in fields && f.1.Text? ==> PlainName(f.1.s)
    ensures name in BaseNames(l, fields) <==> exists f :: f in fields && f.1 == Text(name)
  {
    if fields != [] {
      var front, last := fields[..|fields| - 1], fields[|fields| - 1];
      BaseNamesMean(l, front, name);
      assert fields == front + [last];
      if last.1.Text? { PlainBaseName(l, last.1.s); }
    }
  }

  lemma {:induction false} ListedMeans(l: Lang, es: seq<Entry>, name: string)
    requires forall e, f :: e in es && f in WeightMap(e) && f.1.Text? ==> PlainName(f.1.s)
    ensures name in Listed(l, es) <==> Maps(es, name)
  {
    if es != [] {
      var front, last := es[..|es| - 1], es[|es| - 1];
      ListedMeans(l, front, name);
      assert es == front + [last];
      BaseNamesMean(l, WeightMap(last), name);
    }
  }

  /** A folder whose index files map plain names is complete exactly when every
      mapped file is there with content. */
  lemma ListedCompleteIff(l: Lang, n: Node)
    requires n.Dir? && exists name :: Maps(n.entries, name)
    requires forall e, f :: e in n.entries && f in WeightMap(e) && f.1.Text? ==> PlainName(f.1.s)
    ensures Complete(l, n) <==> forall name :: Maps(n.entries, name) ==>
      Lookup(n.entries, name).Some? && Lookup(n.entries, name).value.File? && Lookup(n.entries, name).value.size > 0
  {
    forall name ensures name in Listed(l, n.entries) <==> Maps(n.entries, name) { ListedMeans(l, n.entries, name); }
  }

  // ---- which snapshot is advertised, and which one is loaded ----

  /** `snapshots/<hash>`; an empty hash is the snapshots folder itself. */
  function Resolve(root: Node, hash: string): Option<Node>
  {
    var snapshots := Child(root, "snapshots");
    if snapshots.None? || hash == "" then snapshots else Child(snapshots.value, hash)
  }

  function EntriesOf(n: Option<Node>): seq<Entry> { if n.Some? && n.value.Dir? then n.value.entries else [] }

  /** The snapshot a ref file names, when there is one. */
  function Referenced(root: Node, ref: Node): Option<Node>
  {
    if ref.File? && ref.text.Some? then Resolve(root, ref.text.value) else None
  }

  predicate ReadyRef(root: Node, ref: Entry)
  {
    Referenced(root, ref.node).Some? && Ready(Rust, Referenced(root, ref.node).value)
  }

  /** A ref names the folder of its hash below `snapshots`. */
  lemma RefMeans(root: Node, ref: Entry, snapshots: seq<Entry>, hash: string)
    requires Child(root, "snapshots") == Some(Dir(snapshots)) && ref.node.File? && ref.node.text == Some(hash) && hash != ""
    ensures ReadyRef(root, ref) <==> Lookup(snapshots, hash).Some? && Ready(Rust, Lookup(snapshots, hash).value)
  {
  }

  predicate AnyReadyRef(root: Node, refs: seq<Entry>) { exists ref :: ref in refs && ReadyRef(root, ref) }

  predicate AnyReady(snapshots: seq<Entry>) { exists e :: e in snapshots && Ready(Rust, e.node) }

  method ReadySnapshotOf(root: Node, ref: Entry) returns (r: Option<Node>)
    ensures r.Some? ==> Ready(Rust, r.value)
    ensures r.Some? <==> ReadyRef(root, ref)
  {
    var snap := Referenced(root, ref.node);
    if snap.None? {
      return None;
    }
    var ready := SnapshotReady(Rust, snap.value);
    return if ready then snap else None;
  }

  method SnapshotFromRefs(root: Node, refs: seq<Entry>) returns (r: Option<Node>)
    ensures r.Some? ==> Ready(Rust, r.value)
    ensures r.Some? <==> AnyReadyRef(root, refs)
  {
    for i := 0 to |refs|
      invariant forall j :: 0 <= j < i ==> !ReadyRef(root, refs[j])
    {
      r := ReadySnapshotOf(root, refs[i]);
      if r.Some? {
        return;
      }
    }
    r := None;
  }

  /** Finds a ready snapshot exactly when a ref names one or the snapshots
      folder holds one. */
  method HfReadySnapshotPathIn(root: Node) returns (r: Option<Node>)
    ensures r.Some? ==> Ready(Rust, r.value)
    ensures r.Some? <==>
      AnyReadyRef(root, EntriesOf(Child(root, "refs"))) || AnyReady(EntriesOf(Child(root, "snapshots")))
  {
    r := SnapshotFromRefs(root, EntriesOf(Child(root, "refs")));
    if r.None? {
      r := FirstReady(EntriesOf(Child(root, "snapshots")));
    }
  }

  /** A path that is no folder has no model index. */
  method ReadyFolder(n: Node) returns (r: bool)
    ensures r == Ready(Rust, n)
  {
    if !n.Dir? {
      return false;
    }
    r := SnapshotReady(Rust, n);
  }

  method FirstReady(snapshots: seq<Entry>) returns (r: Option<Node>)
    ensures r.Some? ==> Ready(Rust, r.value)
    ensures r.Some? <==> AnyReady(snapshots)
  {
    for i := 0 to |snapshots|
      invariant forall j :: 0 <= j < i ==> !Ready(Rust, snapshots[j].node)
    {
      var ready := ReadyFolder(snapshots[i].node);
      if ready {
        return Some(snapshots[i].node);
      }
    }
    return None;
  }

  predicate HasIndex(n: Option<Node>)
  {
    n.Some? && Child(n.value, "model_index.json").Some? && Child(n.value, "model_index.json").value.File?
  }

  /** The index must be a file of the folder; whether it parses is not asked. */
  lemma HasIndexIff(n: Node)
    ensures HasIndex(Some(n)) <==>
      n.Dir? && exists size, text, json :: Lookup(n.entries, "model_index.json") == Some(File(size, text, json))
  {
    if HasIndex(Some(n)) {
      var f := Lookup(n.entries, "model_index.json").value;
      assert Lookup(n.entries, "model_index.json") == Some(File(f.size, f.text, f.json));
    }
  }

  predicate Indexed(e: Entry) { e.node.Dir? && HasIndex(Some(e.node)) }

  /** The snapshot the revision's ref names, when it has a model index. */
  function NamedByRef(root: Node, revision: string): Option<Node>
  {
    var refs := Child(root, "refs");
    var ref := if refs.Some? then Child(refs.value, revision) else None;
    var named := if ref.Some? then Referenced(root, ref.value) else None;
    if HasIndex(named) then named else None
  }

  predicate FirstAt(listing: seq<Entry>, k: nat)
  {
    k < |listing| && Indexed(listing[k]) && forall j :: 0 <= j < k ==> !Indexed(listing[j])
  }

  /** What the worker loads: the hint, else the ref, else the first folder of the
      sorted listing, asking each only for its `model_index.json`. */
  method LocalSnapshotDir(hint: Option<Node>, root: Node, revision: string, listing: seq<Entry>) returns (r: Option<Node>)
    ensures r.Some? ==> HasIndex(r)
    ensures HasIndex(hint) ==> r == hint
    ensures !HasIndex(hint) ==> Falls(root, revision, listing, r)
  {
    if HasIndex(hint) {
      return hint;
    }
    var refs := Child(root, "refs");
    var ref := if refs.Some? then Child(refs.value, revision) else None;
    if ref.Some? && ref.value.File? && ref.value.text.Some? {
      var snap := Resolve(root, ref.value.text.value);
      if HasIndex(snap) {
        return snap;
      }
    }
    for i := 0 to |listing|
      invariant forall j :: 0 <= j < i ==> !Indexed(listing[j])
    {
      if listing[i].node.Dir? && HasIndex(Some(listing[i].node)) {
        assert FirstAt(listing, i);
        return Some(listing[i].node);
      }
    }
    return None;
  }

  /** Without a usable hint: the ref's snapshot, else the first indexed folder. */
  predicate Falls(root: Node, revision: string, listing: seq<Entry>, r: Option<Node>)
  {
    var named := NamedByRef(root, revision);
    if named.Some? then r == named
    else if r.None? then forall e :: e in listing ==> !Indexed(e)
    else exists k :: 0 <= k < |listing| && FirstAt(listing, k) && listing[k].node == r.value
  }

  /** The job is refused as incomplete unless something was picked and passes. */
  predicate Served(r: Option<Node>) { r.Some? && Ready(Python, r.value) }

  /** A snapshot the agent found ready and hands over as the hint is the one the
      worker loads, and the worker's own check accepts it. */
  lemma ReadyHintIsServed(snap: Node)
    requires RegularTree(snap)
    ensures Ready(Rust, snap) ==> HasIndex(Some(snap)) && Served(Some(snap))
  {
    ChecksAgree(snap);
  }

  /** Without the hint the job is served exactly when the agent's own check
      accepts what the ref names or, without one, the first indexed folder:
      a complete snapshot further down the listing does not help. */
  lemma ServedWithoutHintIff(root: Node, revision: string, listing: seq<Entry>, r: Option<Node>)
    requires Falls(root, revision, listing, r)
    requires NamedByRef(root, revision).Some? ==> RegularTree(NamedByRef(root, revision).value)
    requires forall e :: e in listing ==> RegularTree(e.node)
    ensures Served(r) <==>
      var named := NamedByRef(root, revision);
      if named.Some? then Ready(Rust, named.value)
      else exists k :: 0 <= k < |listing| && FirstAt(listing, k) && Ready(Rust, listing[k].node)
  {
    if NamedByRef(root, revision).Some? {
      ChecksAgree(NamedByRef(root, revision).value);
    } else if r.Some? {
      var k :| 0 <= k < |listing| && FirstAt(listing, k) && listing[k].node == r.value;
      ChecksAgree(listing[k].node);
      forall j | 0 <= j < |listing| && FirstAt(listing, j) ensures j == k {
        assert Indexed(listing[j]) && Indexed(listing[k]);
      }
    }
  }

  /** A folder whose index asks for a component that is not there. */
  function Unfinished(): Node
  {
    Dir([Entry("model_index.json", File(1, None, Some(Object([("vae", Array)]))))])
  }

  lemma UnfinishedIsIndexedNotReady(l: Lang)
    ensures HasIndex(Some(Unfinished())) && !Ready(l, Unfinished())
  {
    var fields := [("vae", Array)];
    assert Unfinished().entries[1..] == [];
    assert ModelIndex(Unfinished()) == Some(Object(fields));
    assert WEIGHT_COMPONENTS[2] == "vae" && ("vae", Array) in fields && Component(("vae", Array));
    assert Child(Unfinished(), "vae") == None;
    assert !ComponentReady(l, Unfinished(), "vae");
  }

  /** An advertised machine can refuse the hintless job: its first folder has only
      its index yet, and the ready snapshot comes later. */
  lemma UnfinishedFolderHidesReadySnapshot(ready: Entry, revision: string, r: Option<Node>)
    requires Ready(Rust, ready.node)
    requires var listing := [Entry("a", Unfinished()), ready];
      Falls(Dir([Entry("snapshots", Dir(listing))]), revision, listing, r)
    ensures AnyReady([Entry("a", Unfinished()), ready]) && r == Some(Unfinished()) && !Served(r)
  {
    var listing := [Entry("a", Unfinished()), ready];
    var root := Dir([Entry("snapshots", Dir(listing))]);
    UnfinishedIsIndexedNotReady(Python);
    assert root.entries[1..] == [];
    assert Child(root, "refs") == None;
    assert Indexed(listing[0]);
    assert ready in listing;
  }

  lemma OneFile(l: Lang, e: Entry)
    requires e.node == File(1, None, None)
    ensures Listed(l, [e]) == {}
    ensures Shards(l, [e]) == if ParseShard(l, e.name).Some? then {ParseShard(l, e.name).value} else {}
  {
    assert [e][..0] == [];
    assert WeightMap(e) == [];
  }

  lemma LoneFileComplete(l: Lang, e: Entry)
    requires e.node == File(1, None, None) && IsWeight(e)
    requires ParseShard(l, e.name).Some? ==> 1 <= ParseShard(l, e.name).value.idx <= ParseShard(l, e.name).value.n
    ensures Complete(l, Dir([e])) <==> ParseShard(l, e.name).None? || ParseShard(l, e.name).value.n == 1
  {
    OneFile(l, e);
    assert e in [e];
    if ParseShard(l, e.name).Some? {
      var s := ParseShard(l, e.name).value;
      LoneShardClosedIff(s);
    }
  }

  lemma LoneShardClosedIff(s: Shard)
    requires 1 <= s.idx <= s.n
    ensures Closed({s}) <==> s.n == 1
  {
    if s.n > 1 {
      var other := if s.idx == 1 then 2 else 1;
      assert s in {s} && Shard(s.prefix, other, s.n) !in {s};
    }
  }

  function ReadAnyhow(name: string): Option<Shard>
  {
    if ParseShardName(name).Some? then ParseShardName(name) else PyShardName(name)
  }

  /** On a folder of one weight file the checks agree exactly when its name is
      regular or the shard read by the one program is the only one of its group. */
  lemma LoneFileAgreeIff(e: Entry)
    requires e.node == File(1, None, None) && IsWeight(e)
    ensures Complete(Rust, Dir([e])) == Complete(Python, Dir([e])) <==>
      RegularShard(e.name) || (ReadAnyhow(e.name).Some? && ReadAnyhow(e.name).value.n == 1)
  {
    ShardNamesAgreeIff(e.name);
    OneReadsAtMost(e.name);
    LoneFileComplete(Rust, e);
    LoneFileComplete(Python, e);
  }

  /** The readers differ only by one reading nothing. */
  lemma OneReadsAtMost(name: string)
    ensures ParseShardName(name).Some? && PyShardName(name).Some? ==> ParseShardName(name) == PyShardName(name)
    ensures ParseShardName(name).Some? ==> 1 <= ParseShardName(name).value.idx <= ParseShardName(name).value.n
    ensures PyShardName(name).Some? ==> 1 <= PyShardName(name).value.idx <= PyShardName(name).value.n
  {
    if ParseShardName(name).Some? && PyShardName(name).Some? { BothReadAlike(name); }
  }

  /** One upper-case shard of several: the agent sees a whole weight file, the
      worker an unfinished group. */
  lemma UpperCaseShardSplitsChecks(s: Shard, width: nat)
    requires s.prefix != "" && 1 <= s.idx <= s.n && s.n >= 2
    ensures var folder := Dir([Entry(PrintShard(s, width, ".BIN"), File(1, None, None))]);
      Complete(Rust, folder) && !Complete(Python, folder)
  {
    var e := Entry(PrintShard(s, width, ".BIN"), File(1, None, None));
    UpperCaseSplitsReaders(s, width);
    LoneFileComplete(Rust, e);
    LoneFileComplete(Python, e);
  }
}
