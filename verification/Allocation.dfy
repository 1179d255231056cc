/** The Allocate protocol: every call decodes the pod's pending-device annotation, pops
    one non-empty slot per container request by erasing it in place, and commits only by
    patching the annotation. */
module Allocation {
  import opened Wrappers
  import opened Devices
  import Decimal
  import Seqs
  import Text

  datatype ContainerDevice = ContainerDevice(uuid: string, usedMem: int, usedCores: int)

  /** The devices of one container; the annotation holds one slot per container. */
  type Slot = seq<ContainerDevice>

  datatype RuntimeInfo = RuntimeInfo(uuid: string, temp: string, memory: Option<int>, core: Option<int>)

  /** What a call sees besides the annotation. `infos` is None when the runtime annotation
      is missing or malformed; `present` are the files that exist in the plugin's container. */
  datatype Env = Env(
    devs: seq<Device>,
    infos: Option<seq<RuntimeInfo>>,
    podUID: string,
    initNames: seq<string>,
    ctrNames: seq<string>,
    mode: string,
    nodeHamiCore: bool,
    hookPath: string,
    present: set<string>)

  datatype Mount = Mount(hostPath: string, containerPath: string, readOnly: bool)

  /** `shmemDir` is the directory made anew for the container. */
  datatype Response = Response(
    visibleDevices: string,
    vnpuSpecs: Option<string>,
    memQuota: Option<string>,
    priority: Option<string>,
    globalShm: Option<string>,
    localShm: Option<string>,
    shmemDir: Option<string>,
    mounts: seq<Mount>)

  datatype AllocError =
    | NoPendingPod
    | NoRuntimeInfo
    | NotDecodable
    | NothingPending
    | SizeMismatch
    | UnknownUUID
    | EmptySlot
    | PatchFailed

  // ----- the runtime-info lookup

  /** Last entry wins; entries without a UUID are ignored. */
  function Lookup(infos: seq<RuntimeInfo>): map<string, RuntimeInfo> {
    if infos == [] then map[]
    else
      var last := infos[|infos| - 1];
      var before := Lookup(infos[..|infos| - 1]);
      if last.uuid != "" then before[last.uuid := last] else before
  }

  method BuildLookup(infos: seq<RuntimeInfo>) returns (lookup: map<string, RuntimeInfo>)
    ensures lookup == Lookup(infos)
  {
    lookup := map[];
    for i := 0 to |infos|
      invariant lookup == Lookup(infos[..i])
    {
      if infos[i].uuid != "" {
        lookup := lookup[infos[i].uuid := infos[i]];
      }
      assert infos[..i + 1][..i] == infos[..i];
    }
    assert infos[..|infos|] == infos;
  }

  /** Entry `i` is the last one that names `uuid`. */
  predicate LastNaming(infos: seq<RuntimeInfo>, uuid: string, i: int) {
    0 <= i < |infos| && infos[i].uuid == uuid && forall j :: i < j < |infos| ==> infos[j].uuid != uuid
  }

  /** A UUID is found exactly when it is non-empty and named, and then with its last entry. */
  lemma {:induction false} LookupLast(infos: seq<RuntimeInfo>, uuid: string)
    ensures uuid in Lookup(infos) <==> uuid != "" && exists i :: 0 <= i < |infos| && infos[i].uuid == uuid
    ensures forall i :: LastNaming(infos, uuid, i) && uuid != "" ==> Lookup(infos)[uuid] == infos[i]
  {
    if infos != [] {
      var n := |infos| - 1;
      LookupLast(infos[..n], uuid);
      NamedSnoc(infos, uuid);
      forall i | LastNaming(infos, uuid, i) && uuid != "" ensures Lookup(infos)[uuid] == infos[i] {
        LastNamingFront(infos, uuid, i);
      }
    }
  }

  lemma NamedSnoc(infos: seq<RuntimeInfo>, uuid: string)
    requires infos != []
    ensures var n := |infos| - 1;
      (exists i :: 0 <= i < |infos| && infos[i].uuid == uuid) <==>
        infos[n].uuid == uuid || exists i :: 0 <= i < n && infos[..n][i].uuid == uuid
  {
    var n := |infos| - 1;
    assert forall i :: 0 <= i < n ==> infos[..n][i] == infos[i];
  }

  lemma LastNamingFront(infos: seq<RuntimeInfo>, uuid: string, i: int)
    requires LastNaming(infos, uuid, i)
    ensures var n := |infos| - 1;
      if infos[n].uuid == uuid then i == n else i < n && infos[..n][i] == infos[i] && LastNaming(infos[..n], uuid, i)
  {
  }

  // ----- the response of one container

  /** First value that `pick` yields among the runtime infos of the slot's devices. */
  function FirstOf<T>(slot: Slot, lookup: map<string, RuntimeInfo>, pick: RuntimeInfo -> Option<T>): Option<T> {
    if slot == [] then None
    else if slot[0].uuid in lookup && pick(lookup[slot[0].uuid]).Some? then pick(lookup[slot[0].uuid])
    else FirstOf(slot[1..], lookup, pick)
  }

  lemma {:induction false} FirstOfSnoc<T>(slot: Slot, d: ContainerDevice, lookup: map<string, RuntimeInfo>,
                                          pick: RuntimeInfo -> Option<T>)
    ensures FirstOf(slot + [d], lookup, pick)
         == if FirstOf(slot, lookup, pick).Some? then FirstOf(slot, lookup, pick) else FirstOf([d], lookup, pick)
  {
    if slot == [] {
      assert [] + [d] == [d];
    } else {
      assert (slot + [d])[1..] == slot[1..] + [d];
      FirstOfSnoc(slot[1..], d, lookup, pick);
    }
  }

  /** `FirstOf` is the value at the first device that yields one. */
  lemma {:induction false} FirstOfExact<T>(slot: Slot, lookup: map<string, RuntimeInfo>,
                                           pick: RuntimeInfo -> Option<T>, i: nat)
    requires i < |slot| && slot[i].uuid in lookup && pick(lookup[slot[i].uuid]).Some?
    requires forall j :: 0 <= j < i && slot[j].uuid in lookup ==> pick(lookup[slot[j].uuid]) == None
    ensures FirstOf(slot, lookup, pick) == pick(lookup[slot[i].uuid])
  {
    if i > 0 {
      assert slot[0].uuid in lookup ==> pick(lookup[slot[0].uuid]) == None;
      FirstOfExact(slot[1..], lookup, pick, i - 1);
    }
  }

  function TempOf(info: RuntimeInfo): Option<string> { if info.temp != "" then Some(info.temp) else None }
  function MemoryOf(info: RuntimeInfo): Option<int> { info.memory }
  function CoreOf(info: RuntimeInfo): Option<int> { info.core }

  predicate Known(devs: seq<Device>, uuid: string) { IndexByUUID(devs, uuid) < |devs| }

  predicate AllKnown(devs: seq<Device>, slot: Slot) {
    forall i :: 0 <= i < |slot| ==> Known(devs, slot[i].uuid)
  }

  function PhyIDs(devs: seq<Device>, slot: Slot): (ids: seq<int>)
    requires AllKnown(devs, slot)
    ensures |ids| == |slot|
  {
    seq(|slot|, i requires 0 <= i < |slot| => devs[IndexByUUID(devs, slot[i].uuid)].phyID)
  }

  function JoinIDs(ids: seq<int>): string
    requires ids != []
  {
    if |ids| == 1 then Decimal.FormatInt(ids[0])
    else JoinIDs(ids[..|ids| - 1]) + [','] + Decimal.FormatInt(ids[|ids| - 1])
  }

  function PrintAll(ids: seq<int>): (fields: seq<string>)
    ensures |fields| == |ids|
  {
    seq(|ids|, i requires 0 <= i < |ids| => Decimal.FormatInt(ids[i]))
  }

  lemma PrintAllSnoc(ids: seq<int>)
    requires ids != []
    ensures PrintAll(ids) == PrintAll(ids[..|ids| - 1]) + [Decimal.FormatInt(ids[|ids| - 1])]
  {
  }

  /** The comma-joined value splits back into the printed IDs, in order. */
  lemma {:induction false} JoinSplits(ids: seq<int>)
    requires ids != []
    ensures Text.Split(JoinIDs(ids), ',') == PrintAll(ids)
  {
    var last := Decimal.FormatInt(ids[|ids| - 1]);
    PrintAllSnoc(ids);
    if |ids| == 1 {
      Text.SplitNone(last, ',');
    } else {
      JoinSplits(ids[..|ids| - 1]);
      Text.SplitSnoc(JoinIDs(ids[..|ids| - 1]), ',', last);
    }
  }

  /** A container is told exactly its own cards: equal values mean equal ID lists. */
  lemma VisibleDevicesExact(a: seq<int>, b: seq<int>)
    requires a != [] && b != [] && JoinIDs(a) == JoinIDs(b)
    ensures a == b
  {
    JoinSplits(a);
    JoinSplits(b);
    assert |a| == |PrintAll(a)| == |b|;
    forall i | 0 <= i < |a| ensures a[i] == b[i] {
      assert PrintAll(a)[i] == PrintAll(b)[i];
      Decimal.FormatIntInjective(a[i], b[i]);
    }
  }

  function HamiCore(env: Env): bool {
    env.mode == "hami-core" || (env.mode == "" && env.nodeHamiCore)
  }

  function DirName(podUID: string, ctrName: string): string { podUID + "_" + ctrName }

  function Printed(x: Option<int>): Option<string> {
    if x.Some? then Some(Decimal.FormatInt(x.value)) else None
  }

  const DRIVER_PATHS := [
    "/usr/local/bin/npu-smi",
    "/etc/ascend_install.info",
    "/usr/local/Ascend/driver/lib64/driver",
    "/usr/local/Ascend/driver/version.info"]

  const NPU_SMI_CANDIDATES := [
    "/usr/local/Ascend/driver/tools/npu-smi",
    "/usr/local/sbin/npu-smi",
    "/usr/local/bin/npu-smi"]

  const NPU_SMI := "/usr/local/bin/npu-smi"
  const SHARED_REGION := "/usr/local/hami-shared-region"

  function DriverMounts(paths: seq<string>): (mounts: seq<Mount>)
    ensures |mounts| == |paths|
  {
    seq(|paths|, i requires 0 <= i < |paths| => Mount(paths[i], paths[i], true))
  }

  /** The mounts of a container under hami-core; `dir` is its shared-memory directory. */
  function CoreMounts(dir: string): seq<Mount> {
    DriverMounts(DRIVER_PATHS) + [
      Mount("/usr/local/hami-vnpu-core", "/hami-vnpu-core", true),
      Mount("/usr/local/hami-vnpu-core/ld.so.preload", "/etc/ld.so.preload", true),
      Mount(SHARED_REGION, "/hami-shared-region", false),
      Mount(dir, "/hami-vnpu-shmem", false)]
  }

  /** A container can write to the shared region and to its own directory, nowhere else. */
  lemma WritableMounts(dir: string, host: string)
    ensures (exists m :: m in CoreMounts(dir) && m.hostPath == host && !m.readOnly) <==>
      host == SHARED_REGION || host == dir
  {
    var mounts, n := CoreMounts(dir), |DRIVER_PATHS|;
    assert forall i :: 0 <= i < n + 2 ==> mounts[i].readOnly;
    assert mounts[n + 2].hostPath == SHARED_REGION && mounts[n + 3].hostPath == dir;
    assert forall m :: m in mounts && !m.readOnly ==> m == mounts[n + 2] || m == mounts[n + 3];
  }

  /** The first candidate that exists, if any, is mounted as npu-smi. */
  function SmiMount(candidates: seq<string>, present: set<string>): seq<Mount> {
    if candidates == [] then []
    else if candidates[0] in present then [Mount(candidates[0], NPU_SMI, true)]
    else SmiMount(candidates[1..], present)
  }

  /** At most one npu-smi is mounted, and it is the first candidate that exists. */
  lemma {:induction false} SmiMountIff(candidates: seq<string>, present: set<string>, path: string)
    ensures SmiMount(candidates, present) == [Mount(path, NPU_SMI, true)] <==>
      exists i :: 0 <= i < |candidates| && candidates[i] == path && path in present &&
        forall j :: 0 <= j < i ==> candidates[j] !in present
    ensures SmiMount(candidates, present) == [] <==> forall i :: 0 <= i < |candidates| ==> candidates[i] !in present
  {
    if candidates != [] {
      var tail := candidates[1..];
      SmiMountIff(tail, present, path);
      assert forall i :: 0 <= i < |tail| ==> tail[i] == candidates[i + 1];
    }
  }

  method MountNpuSmi(present: set<string>) returns (mounts: seq<Mount>)
    ensures mounts == SmiMount(NPU_SMI_CANDIDATES, present)
  {
    var candidates := NPU_SMI_CANDIDATES;
    for i := 0 to |candidates|
      invariant SmiMount(candidates, present) == SmiMount(candidates[i..], present)
    {
      assert candidates[i..][1..] == candidates[i + 1..];
      if candidates[i] in present {
        return [Mount(candidates[i], NPU_SMI, true)];
      }
    }
    return [];
  }

  /** The loop over the driver paths and the mounts after it. */
  method MountCore(dir: string) returns (mounts: seq<Mount>)
    ensures mounts == CoreMounts(dir)
  {
    var paths := DRIVER_PATHS;
    mounts := [];
    for i := 0 to |paths|
      invariant mounts == DriverMounts(paths)[..i]
    {
      mounts := mounts + [Mount(paths[i], paths[i], true)];
    }
    mounts := mounts + [Mount("/usr/local/hami-vnpu-core", "/hami-vnpu-core", true)];
    mounts := mounts + [Mount("/usr/local/hami-vnpu-core/ld.so.preload", "/etc/ld.so.preload", true)];
    mounts := mounts + [Mount(SHARED_REGION, "/hami-shared-region", false)];
    mounts := mounts + [Mount(dir, "/hami-vnpu-shmem", false)];
  }

  function ResponseFor(env: Env, lookup: map<string, RuntimeInfo>, ctrName: string, slot: Slot)
    : Result<Response, AllocError>
  {
    if !AllKnown(env.devs, slot) then Err(UnknownUUID)
    else if slot == [] then Err(EmptySlot)
    else
      var ids := PhyIDs(env.devs, slot);
      if HamiCore(env) then
        var dir := env.hookPath + "/containers/" + DirName(env.podUID, ctrName);
        Ok(Response(JoinIDs(ids), None,
                    Printed(FirstOf(slot, lookup, MemoryOf)),
                    Printed(FirstOf(slot, lookup, CoreOf)),
                    Some("/hami-shared-region/" + Decimal.FormatInt(ids[0]) + "_global_registry"),
                    Some("/hami-vnpu-shmem/vnpu_local_shmem"),
                    Some(dir), CoreMounts(dir)))
      else
        Ok(Response(JoinIDs(ids), FirstOf(slot, lookup, TempOf), None, None, None, None, None,
                    SmiMount(NPU_SMI_CANDIDATES, env.present)))
  }

  // ----- what a response tells its container

  /** Device `i` of the slot is the first whose runtime info sets the value that `has` looks for. */
  predicate FirstWith(slot: Slot, lookup: map<string, RuntimeInfo>, has: RuntimeInfo -> bool, i: nat) {
    && i < |slot| && slot[i].uuid in lookup && has(lookup[slot[i].uuid])
    && forall j :: 0 <= j < i && slot[j].uuid in lookup ==> !has(lookup[slot[j].uuid])
  }

  predicate NoneWith(slot: Slot, lookup: map<string, RuntimeInfo>, has: RuntimeInfo -> bool) {
    forall j :: 0 <= j < |slot| && slot[j].uuid in lookup ==> !has(lookup[slot[j].uuid])
  }

  lemma {:induction false} FirstOfDecides<T>(slot: Slot, lookup: map<string, RuntimeInfo>,
                                             pick: RuntimeInfo -> Option<T>, has: RuntimeInfo -> bool)
    requires forall info :: has(info) <==> pick(info).Some?
    ensures NoneWith(slot, lookup, has) ==> FirstOf(slot, lookup, pick) == None
    ensures forall i: nat :: FirstWith(slot, lookup, has, i) ==>
      FirstOf(slot, lookup, pick) == pick(lookup[slot[i].uuid])
  {
    if slot != [] {
      var tail := slot[1..];
      FirstOfDecides(tail, lookup, pick, has);
      assert forall j :: 0 <= j < |tail| ==> tail[j] == slot[j + 1];
      if slot[0].uuid in lookup && has(lookup[slot[0].uuid]) {
        assert forall i: nat :: FirstWith(slot, lookup, has, i) ==> i == 0;
      } else {
        forall i: nat | FirstWith(slot, lookup, has, i)
          ensures FirstOf(slot, lookup, pick) == pick(lookup[slot[i].uuid])
        {
          assert FirstWith(tail, lookup, has, i - 1);
        }
        if NoneWith(slot, lookup, has) {
          assert NoneWith(tail, lookup, has);
        }
      }
    }
  }

  /** The visible devices are the physical IDs of the slot's cards, in order. */
  predicate ShowsCards(env: Env, slot: Slot, visible: string) {
    var fields := Text.Split(visible, ',');
    && |fields| == |slot|
    && forall i :: 0 <= i < |slot| ==>
         var k := IndexByUUID(env.devs, slot[i].uuid);
         k < |env.devs| && fields[i] == Decimal.FormatInt(env.devs[k].phyID)
  }

  /** The settings of a container that shares its cards by hami-core. */
  ghost predicate CoreSettings(env: Env, lookup: map<string, RuntimeInfo>, ctrName: string, slot: Slot, r: Response) {
    && (forall i: nat :: FirstWith(slot, lookup, (info: RuntimeInfo) => info.memory.Some?, i) ==>
          r.memQuota == Some(Decimal.FormatInt(lookup[slot[i].uuid].memory.value)))
    && (NoneWith(slot, lookup, (info: RuntimeInfo) => info.memory.Some?) ==> r.memQuota == None)
    && (forall i: nat :: FirstWith(slot, lookup, (info: RuntimeInfo) => info.core.Some?, i) ==>
          r.priority == Some(Decimal.FormatInt(lookup[slot[i].uuid].core.value)))
    && (NoneWith(slot, lookup, (info: RuntimeInfo) => info.core.Some?) ==> r.priority == None)
    && r.globalShm == Some("/hami-shared-region/" + Text.Split(r.visibleDevices, ',')[0] + "_global_registry")
    && r.localShm == Some("/hami-vnpu-shmem/vnpu_local_shmem")
    && r.shmemDir == Some(env.hookPath + "/containers/" + env.podUID + "_" + ctrName)
    && r.mounts == [
         Mount("/usr/local/bin/npu-smi", "/usr/local/bin/npu-smi", true),
         Mount("/etc/ascend_install.info", "/etc/ascend_install.info", true),
         Mount("/usr/local/Ascend/driver/lib64/driver", "/usr/local/Ascend/driver/lib64/driver", true),
         Mount("/usr/local/Ascend/driver/version.info", "/usr/local/Ascend/driver/version.info", true),
         Mount("/usr/local/hami-vnpu-core", "/hami-vnpu-core", true),
         Mount("/usr/local/hami-vnpu-core/ld.so.preload", "/etc/ld.so.preload", true),
         Mount("/usr/local/hami-shared-region", "/hami-shared-region", false),
         Mount(r.shmemDir.value, "/hami-vnpu-shmem", false)]
    && r.vnpuSpecs == None
  }

  /** Those of a container that gets a hardware template. */
  ghost predicate TemplateSettings(env: Env, lookup: map<string, RuntimeInfo>, slot: Slot, r: Response) {
    && (forall i: nat :: FirstWith(slot, lookup, (info: RuntimeInfo) => info.temp != "", i) ==>
          r.vnpuSpecs == Some(lookup[slot[i].uuid].temp))
    && (NoneWith(slot, lookup, (info: RuntimeInfo) => info.temp != "") ==> r.vnpuSpecs == None)
    && r.memQuota == None && r.priority == None && r.globalShm == None && r.localShm == None && r.shmemDir == None
    && r.mounts == (
         if "/usr/local/Ascend/driver/tools/npu-smi" in env.present then
           [Mount("/usr/local/Ascend/driver/tools/npu-smi", "/usr/local/bin/npu-smi", true)]
         else if "/usr/local/sbin/npu-smi" in env.present then
           [Mount("/usr/local/sbin/npu-smi", "/usr/local/bin/npu-smi", true)]
         else if "/usr/local/bin/npu-smi" in env.present then
           [Mount("/usr/local/bin/npu-smi", "/usr/local/bin/npu-smi", true)]
         else [])
  }

  /** `r` tells container `ctrName` about the cards of `slot`: the pod's mode decides how, and
      the node's where the pod has none. */
  ghost predicate Tells(env: Env, lookup: map<string, RuntimeInfo>, ctrName: string, slot: Slot, r: Response) {
    && ShowsCards(env, slot, r.visibleDevices)
    && (env.mode == "hami-core" || (env.mode == "" && env.nodeHamiCore) ==>
          CoreSettings(env, lookup, ctrName, slot, r))
    && (env.mode != "hami-core" && !(env.mode == "" && env.nodeHamiCore) ==>
          TemplateSettings(env, lookup, slot, r))
  }

  lemma CardsShown(env: Env, slot: Slot)
    requires AllKnown(env.devs, slot) && slot != []
    ensures ShowsCards(env, slot, JoinIDs(PhyIDs(env.devs, slot)))
  {
    JoinSplits(PhyIDs(env.devs, slot));
    assert forall i :: 0 <= i < |slot| ==> Known(env.devs, slot[i].uuid);
  }

  lemma CoreMountsAre(dir: string)
    ensures CoreMounts(dir) == [
      Mount("/usr/local/bin/npu-smi", "/usr/local/bin/npu-smi", true),
      Mount("/etc/ascend_install.info", "/etc/ascend_install.info", true),
      Mount("/usr/local/Ascend/driver/lib64/driver", "/usr/local/Ascend/driver/lib64/driver", true),
      Mount("/usr/local/Ascend/driver/version.info", "/usr/local/Ascend/driver/version.info", true),
      Mount("/usr/local/hami-vnpu-core", "/hami-vnpu-core", true),
      Mount("/usr/local/hami-vnpu-core/ld.so.preload", "/etc/ld.so.preload", true),
      Mount("/usr/local/hami-shared-region", "/hami-shared-region", false),
      Mount(dir, "/hami-vnpu-shmem", false)]
  {
    assert |DriverMounts(DRIVER_PATHS)| == 4;
  }

  lemma CoreTold(env: Env, lookup: map<string, RuntimeInfo>, ctrName: string, slot: Slot)
    requires ResponseFor(env, lookup, ctrName, slot).Ok?
    requires env.mode == "hami-core" || (env.mode == "" && env.nodeHamiCore)
    ensures CoreSettings(env, lookup, ctrName, slot, ResponseFor(env, lookup, ctrName, slot).value)
  {
    var r := ResponseFor(env, lookup, ctrName, slot).value;
    CardsShown(env, slot);
    FirstOfDecides(slot, lookup, MemoryOf, (info: RuntimeInfo) => info.memory.Some?);
    FirstOfDecides(slot, lookup, CoreOf, (info: RuntimeInfo) => info.core.Some?);
    var prefix := env.hookPath + "/containers/";
    assert prefix + (env.podUID + "_" + ctrName) == prefix + env.podUID + "_" + ctrName;
    CoreMountsAre(r.shmemDir.value);
  }

  lemma TemplateTold(env: Env, lookup: map<string, RuntimeInfo>, ctrName: string, slot: Slot)
    requires ResponseFor(env, lookup, ctrName, slot).Ok?
    requires env.mode != "hami-core" && !(env.mode == "" && env.nodeHamiCore)
    ensures TemplateSettings(env, lookup, slot, ResponseFor(env, lookup, ctrName, slot).value)
  {
    FirstOfDecides(slot, lookup, TempOf, (info: RuntimeInfo) => info.temp != "");
    SmiMountCases(env.present);
  }

  lemma SmiMountCases(present: set<string>)
    ensures SmiMount(NPU_SMI_CANDIDATES, present) ==
      if "/usr/local/Ascend/driver/tools/npu-smi" in present then
        [Mount("/usr/local/Ascend/driver/tools/npu-smi", "/usr/local/bin/npu-smi", true)]
      else if "/usr/local/sbin/npu-smi" in present then
        [Mount("/usr/local/sbin/npu-smi", "/usr/local/bin/npu-smi", true)]
      else if "/usr/local/bin/npu-smi" in present then
        [Mount("/usr/local/bin/npu-smi", "/usr/local/bin/npu-smi", true)]
      else []
  {
    var three := NPU_SMI_CANDIDATES;
    var two := ["/usr/local/sbin/npu-smi", "/usr/local/bin/npu-smi"];
    var one := ["/usr/local/bin/npu-smi"];
    assert three[1..] == two && two[1..] == one && one[1..] == [];
    assert SmiMount([], present) == [];
    assert SmiMount(one, present) == if one[0] in present then [Mount(one[0], NPU_SMI, true)] else [];
    assert SmiMount(two, present) ==
      if two[0] in present then [Mount(two[0], NPU_SMI, true)] else SmiMount(one, present);
  }

  /** A response is given exactly for a non-empty slot of known cards, and then tells the
      container all that, and nothing else. */
  lemma ResponseTells(env: Env, lookup: map<string, RuntimeInfo>, ctrName: string, slot: Slot)
    ensures ResponseFor(env, lookup, ctrName, slot).Ok? <==>
      slot != [] && forall i :: 0 <= i < |slot| ==> exists k :: 0 <= k < |env.devs| && env.devs[k].uuid == slot[i].uuid
    ensures ResponseFor(env, lookup, ctrName, slot).Ok? ==>
      Tells(env, lookup, ctrName, slot, ResponseFor(env, lookup, ctrName, slot).value)
  {
    forall i | 0 <= i < |slot|
      ensures Known(env.devs, slot[i].uuid) <==> exists k :: 0 <= k < |env.devs| && env.devs[k].uuid == slot[i].uuid
    {
    }
    if ResponseFor(env, lookup, ctrName, slot).Ok? {
      CardsShown(env, slot);
      if env.mode == "hami-core" || (env.mode == "" && env.nodeHamiCore) {
        CoreTold(env, lookup, ctrName, slot);
      } else {
        TemplateTold(env, lookup, ctrName, slot);
      }
    }
  }

  method JoinVisible(ids: seq<int>) returns (visible: string)
    requires ids != []
    ensures visible == JoinIDs(ids)
  {
    visible := Decimal.FormatInt(ids[0]);
    for i := 1 to |ids|
      invariant visible == JoinIDs(ids[..i])
    {
      visible := visible + [','] + Decimal.FormatInt(ids[i]);
      assert ids[..i + 1][..i] == ids[..i];
    }
    assert ids[..|ids|] == ids;
  }

  function Head<T>(s: seq<T>): Option<T> { if s == [] then None else Some(s[0]) }

  /** The loop over the slot's devices. */
  method CollectDevices(env: Env, lookup: map<string, RuntimeInfo>, slot: Slot)
    returns (known: bool, ids: seq<int>, spec: string, memories: seq<int>, cores: seq<int>)
    ensures known <==> AllKnown(env.devs, slot)
    ensures known ==> ids == PhyIDs(env.devs, slot)
    ensures known ==> (if spec == "" then None else Some(spec)) == FirstOf(slot, lookup, TempOf)
    ensures known ==> Head(memories) == FirstOf(slot, lookup, MemoryOf)
    ensures known ==> Head(cores) == FirstOf(slot, lookup, CoreOf)
  {
    ids, memories, cores, spec := [], [], [], "";
    for i := 0 to |slot|
      invariant AllKnown(env.devs, slot[..i]) && ids == PhyIDs(env.devs, slot[..i])
      invariant (if spec == "" then None else Some(spec)) == FirstOf(slot[..i], lookup, TempOf)
      invariant Head(memories) == FirstOf(slot[..i], lookup, MemoryOf)
      invariant Head(cores) == FirstOf(slot[..i], lookup, CoreOf)
    {
      var dev := slot[i];
      var k := IndexByUUID(env.devs, dev.uuid);
      if k == |env.devs| {
        assert !Known(env.devs, slot[i].uuid);
        return false, ids, spec, memories, cores;
      }
      ids := ids + [env.devs[k].phyID];
      if dev.uuid in lookup {
        var info := lookup[dev.uuid];
        if spec == "" && info.temp != "" {
          spec := info.temp;
        }
        if info.memory.Some? {
          memories := memories + [info.memory.value];
        }
        if info.core.Some? {
          cores := cores + [info.core.value];
        }
      }
      FirstOfSnoc(slot[..i], dev, lookup, TempOf);
      FirstOfSnoc(slot[..i], dev, lookup, MemoryOf);
      FirstOfSnoc(slot[..i], dev, lookup, CoreOf);
      assert slot[..i + 1] == slot[..i] + [dev];
    }
    assert slot[..|slot|] == slot;
    known := true;
  }

  method BuildResponse(env: Env, lookup: map<string, RuntimeInfo>, ctrName: string, slot: Slot)
    returns (r: Result<Response, AllocError>)
    ensures r == ResponseFor(env, lookup, ctrName, slot)
    ensures r.Ok? ==> Tells(env, lookup, ctrName, slot, r.value)
  {
    ResponseTells(env, lookup, ctrName, slot);
    var known, ids, spec, memories, cores := CollectDevices(env, lookup, slot);
    if !known {
      return Err(UnknownUUID);
    }
    if |ids| == 0 {
      return Err(EmptySlot);
    }
    var visible := JoinVisible(ids);
    var resp := Response(visible, None, None, None, None, None, None, []);
    if env.mode == "hami-core" || (env.mode == "" && env.nodeHamiCore) {
      if |memories| > 0 {
        resp := resp.(memQuota := Some(Decimal.FormatInt(memories[0])));
      }
      if |cores| > 0 {
        resp := resp.(priority := Some(Decimal.FormatInt(cores[0])));
      }
      resp := resp.(globalShm := Some("/hami-shared-region/" + Decimal.FormatInt(ids[0]) + "_global_registry"));
      var dir := env.hookPath + "/containers/" + (env.podUID + "_" + ctrName);
      var mounts := MountCore(dir);
      resp := resp.(shmemDir := Some(dir), mounts := mounts,
                    localShm := Some("/hami-vnpu-shmem/vnpu_local_shmem"));
    } else {
      if spec != "" {
        resp := resp.(vnpuSpecs := Some(spec));
      }
      var mounts := MountNpuSmi(env.present);
      resp := resp.(mounts := mounts);
    }
    return Ok(resp);
  }

  // ----- popping slots

  function FirstPending(slots: seq<Slot>): (k: nat)
    ensures k <= |slots|
    ensures k < |slots| ==> slots[k] != []
    ensures forall i :: 0 <= i < k ==> slots[i] == []
  {
    if slots == [] || slots[0] != [] then 0 else 1 + FirstPending(slots[1..])
  }

  /** The annotation lists init containers first, then regular ones; positions past them are
      unnamed. */
  function CtrName(env: Env, i: nat): (name: string)
    ensures var names := env.initNames + env.ctrNames; name == if i < |names| then names[i] else ""
  {
    if i < |env.initNames| then env.initNames[i]
    else if i - |env.initNames| < |env.ctrNames| then env.ctrNames[i - |env.initNames|]
    else ""
  }

  method PopNext(env: Env, slots: array<Slot>) returns (popped: Option<(Slot, string)>)
    modifies slots
    ensures var before := old(slots[..]);
      var k := FirstPending(before);
      if k == |before| then popped == None && slots[..] == before
      else popped == Some((before[k], CtrName(env, k))) && slots[..] == before[k := []]
  {
    var initCount := |env.initNames|;
    for i := 0 to slots.Length
      invariant slots[..] == old(slots[..])
      invariant forall j :: 0 <= j < i ==> slots[j] == []
    {
      var ctrDevs := slots[i];
      if |ctrDevs| > 0 {
        assert FirstPending(slots[..]) == i;
        slots[i] := [];
        var name := "";
        if i < initCount {
          name := env.initNames[i];
        } else {
          var regularIdx := i - initCount;
          if regularIdx < |env.ctrNames| {
            name := env.ctrNames[regularIdx];
          }
        }
        return Some((ctrDevs, name));
      }
    }
    assert forall j :: 0 <= j < slots.Length ==> slots[..][j] == [];
    popped := None;
  }

  // ----- one call

  /** `index` is the slot a response was served from. */
  datatype Grant = Grant(index: nat, devs: Slot, response: Response)

  /** What a batch has been granted so far, and the slots as erased so far. */
  datatype Progress = Progress(grants: seq<Grant>, slots: seq<Slot>)

  function ServeOne(env: Env, lookup: map<string, RuntimeInfo>, p: Progress, size: nat)
    : (r: Result<Progress, AllocError>)
    ensures r.Ok? ==> |r.value.slots| == |p.slots|
  {
    var k := FirstPending(p.slots);
    if k == |p.slots| then Err(NothingPending)
    else if |p.slots[k]| != size then Err(SizeMismatch)
    else
      match ResponseFor(env, lookup, CtrName(env, k), p.slots[k])
      case Err(e) => Err(e)
      case Ok(response) => Ok(Progress(p.grants + [Grant(k, p.slots[k], response)], p.slots[k := []]))
  }

  /** Serving `sizes` requests in order; the first failure ends the batch. */
  function Serve(env: Env, lookup: map<string, RuntimeInfo>, p: Progress, sizes: seq<nat>)
    : (r: Result<Progress, AllocError>)
    ensures r.Ok? ==> |r.value.slots| == |p.slots|
    decreases |sizes|
  {
    if sizes == [] then Ok(p)
    else
      match Serve(env, lookup, p, sizes[..|sizes| - 1])
      case Err(e) => Err(e)
      case Ok(q) => ServeOne(env, lookup, q, sizes[|sizes| - 1])
  }

  /** One Allocate request with the outcomes of the calls it makes to the outside. */
  datatype Call = Call(env: Env, sizes: seq<nat>, podFound: bool, decodes: bool, patches: bool)

  function Outcome(call: Call, slots: seq<Slot>): (r: Result<Progress, AllocError>)
    ensures r.Ok? ==> |r.value.slots| == |slots|
  {
    if !call.podFound then Err(NoPendingPod)
    else if call.env.infos == None then Err(NoRuntimeInfo)
    else if !call.decodes then Err(NotDecodable)
    else
      var served := Serve(call.env, Lookup(call.env.infos.value), Progress([], slots), call.sizes);
      if served.Ok? && !call.patches then Err(PatchFailed) else served
  }

  function Responses(grants: seq<Grant>): seq<Response> {
    seq(|grants|, i requires 0 <= i < |grants| => grants[i].response)
  }

  /** The pod as stored by the API server: `pending` is its device annotation. */
  class PodRecord {
    var pending: seq<Slot>

    constructor (slots: seq<Slot>)
      ensures pending == slots
    {
      pending := slots;
    }
  }

  /** One request: pops the next slot in place and answers from it. */
  method ServeRequest(env: Env, lookup: map<string, RuntimeInfo>, slots: array<Slot>, size: nat,
                      ghost granted: seq<Grant>)
    returns (r: Result<Response, AllocError>, ghost grants: seq<Grant>)
    modifies slots
    ensures match ServeOne(env, lookup, Progress(granted, old(slots[..])), size)
      case Err(e) => r == Err(e)
      case Ok(q) => r.Ok? && q == Progress(grants, slots[..]) && Responses(grants) == Responses(granted) + [r.value]
  {
    grants := granted;
    ghost var before := slots[..];
    var popped := PopNext(env, slots);
    if popped == None {
      return Err(NothingPending), grants;
    }
    var (devs, name) := popped.value;
    if |devs| != size {
      return Err(SizeMismatch), grants;
    }
    r := BuildResponse(env, lookup, name, devs);
    if r.Ok? {
      grants := granted + [Grant(FirstPending(before), devs, r.value)];
    }
  }

  function Answer(r: Result<Progress, AllocError>): Result<seq<Response>, AllocError> {
    match r case Err(e) => Err(e) case Ok(p) => Ok(Responses(p.grants))
  }

  /** The request loop; on an error the erasures made so far are abandoned with `slots`. */
  method ServeBatch(env: Env, lookup: map<string, RuntimeInfo>, slots: array<Slot>, sizes: seq<nat>)
    returns (r: Result<seq<Response>, AllocError>)
    modifies slots
    ensures r == Answer(Serve(env, lookup, Progress([], old(slots[..])), sizes))
    ensures r.Ok? ==> slots[..] == Serve(env, lookup, Progress([], old(slots[..])), sizes).value.slots
  {
    var responses: seq<Response> := [];
    ghost var start := Progress([], slots[..]);
    ghost var grants: seq<Grant> := [];
    for i := 0 to |sizes|
      invariant Serve(env, lookup, start, sizes[..i]) == Ok(Progress(grants, slots[..]))
      invariant responses == Responses(grants)
    {
      ServeUpTo(env, lookup, start, sizes, i);
      var response;
      response, grants := ServeRequest(env, lookup, slots, sizes[i], grants);
      if response.Err? {
        ServeStops(env, lookup, start, sizes, i + 1);
        return Err(response.error);
      }
      responses := responses + [response.value];
    }
    assert sizes[..|sizes|] == sizes;
    return Ok(responses);
  }

  /** A failed call leaves the stored annotation as it was; a successful one answers with
      the served responses and stores the erased slots. */
  method Allocate(pod: PodRecord, call: Call) returns (r: Result<seq<Response>, AllocError>)
    modifies pod
    ensures match Outcome(call, old(pod.pending))
      case Ok(served) => r == Ok(Responses(served.grants)) && pod.pending == served.slots
      case Err(e) => r == Err(e) && pod.pending == old(pod.pending)
  {
    if !call.podFound {
      return Err(NoPendingPod);
    }
    if call.env.infos == None {
      return Err(NoRuntimeInfo);
    }
    var lookup := BuildLookup(call.env.infos.value);
    if !call.decodes {
      return Err(NotDecodable);
    }
    var decoded := pod.pending;
    var slots := new Slot[|decoded|](i requires 0 <= i < |decoded| => decoded[i]);
    assert slots[..] == decoded;
    r := ServeBatch(call.env, lookup, slots, call.sizes);
    if r.Err? {
      return;
    }
    if !call.patches {
      return Err(PatchFailed);
    }
    pod.pending := slots[..];
  }

  /** Once a request fails the requests after it make no difference. */
  lemma {:induction false} ServeStops(env: Env, lookup: map<string, RuntimeInfo>, p: Progress, sizes: seq<nat>, i: nat)
    requires i <= |sizes| && Serve(env, lookup, p, sizes[..i]).Err?
    ensures Serve(env, lookup, p, sizes) == Serve(env, lookup, p, sizes[..i])
    decreases |sizes|
  {
    if i == |sizes| {
      assert sizes[..i] == sizes;
    } else {
      var front := sizes[..|sizes| - 1];
      assert front[..i] == sizes[..i];
      ServeStops(env, lookup, p, front, i);
    }
  }

  /** Request `i` decides how the batch goes on. */
  lemma ServeUpTo(env: Env, lookup: map<string, RuntimeInfo>, p: Progress, sizes: seq<nat>, i: nat)
    requires i < |sizes| && Serve(env, lookup, p, sizes[..i]).Ok?
    ensures Serve(env, lookup, p, sizes[..i + 1])
         == ServeOne(env, lookup, Serve(env, lookup, p, sizes[..i]).value, sizes[i])
  {
    var upTo := sizes[..i + 1];
    assert upTo[..|upTo| - 1] == sizes[..i] && upTo[|upTo| - 1] == sizes[i];
  }

  lemma ServeNext(env: Env, lookup: map<string, RuntimeInfo>, p: Progress, sizes: seq<nat>, size: nat)
    ensures Serve(env, lookup, p, sizes + [size]) ==
      match Serve(env, lookup, p, sizes)
      case Err(e) => Err(e)
      case Ok(q) => ServeOne(env, lookup, q, size)
  {
    var more := sizes + [size];
    assert more[..|more| - 1] == sizes && more[|more| - 1] == size;
  }

  /** Serving one request list after another is serving their concatenation. */
  lemma {:induction false} ServeSplits(env: Env, lookup: map<string, RuntimeInfo>, p: Progress,
                                       a: seq<nat>, b: seq<nat>)
    requires Serve(env, lookup, p, a).Ok?
    ensures Serve(env, lookup, p, a + b) == Serve(env, lookup, Serve(env, lookup, p, a).value, b)
    decreases |b|
  {
    if b == [] {
      assert a + b == a;
    } else {
      var front, last := b[..|b| - 1], b[|b| - 1];
      ServeSplits(env, lookup, p, a, front);
      Seqs.LastApart(a, b);
      ServeNext(env, lookup, p, a + front, last);
      ServeNext(env, lookup, Serve(env, lookup, p, a).value, front, last);
    }
  }
}
