/** The device manager: loading a config entry, the virtual device count, and the four
    loops over the hardware's device list. */
module Manager {
  import opened Wrappers
  import opened Devices
  import opened ConfigSelection
  import Seqs

  datatype FilterDevices = FilterDevices(uuids: seq<string>, indices: seq<int>)

  datatype NodeConfig = NodeConfig(vDeviceCount: int, filter: FilterDevices)

  // ----- the virtual device count

  /** Integer division that rounds towards zero. */
  function TruncDiv(a: int, b: int): int
    requires b != 0
  {
    if a >= 0 then a / b else -((-a) / b)
  }

  /** None when the division by a zero template size would panic. */
  function VDeviceCount(config: VNPUConfig, node: Option<NodeConfig>): Option<int> {
    if node.Some? && node.value.vDeviceCount > 0 then Some(node.value.vDeviceCount)
    else if config.templates == [] then Some(1)
    else if config.templates[0].memory == 0 then None
    else Some(TruncDiv(config.memoryAllocatable, config.templates[0].memory))
  }

  predicate SortedByMemory(ts: seq<Template>) {
    forall i, j :: 0 <= i < j < |ts| ==> ts[i].memory <= ts[j].memory
  }

  /** What `sort.Slice` promises: the same templates, smallest memory first; the order of
      equal sizes is open. */
  predicate IsSortOf(ts: seq<Template>, sorted: seq<Template>) {
    multiset(sorted) == multiset(ts) && SortedByMemory(sorted)
  }

  lemma InsertKeepsAll(ts: seq<Template>, t: Template, k: nat)
    requires k <= |ts|
    ensures multiset(ts[..k] + [t] + ts[k..]) == multiset(ts) + multiset{t}
  {
    assert ts == ts[..k] + ts[k..];
  }

  lemma InsertKeepsOrder(ts: seq<Template>, t: Template, k: nat)
    requires k <= |ts| && SortedByMemory(ts)
    requires forall i :: 0 <= i < k ==> ts[i].memory <= t.memory
    requires k < |ts| ==> t.memory <= ts[k].memory
    ensures SortedByMemory(ts[..k] + [t] + ts[k..])
  {
    var more := ts[..k] + [t] + ts[k..];
    forall i, j | 0 <= i < j < |more| ensures more[i].memory <= more[j].memory {
      assert more[i] == if i < k then ts[i] else if i == k then t else ts[i - 1];
      assert more[j] == if j < k then ts[j] else if j == k then t else ts[j - 1];
    }
  }

  lemma {:induction false} SortExists(ts: seq<Template>) returns (sorted: seq<Template>)
    ensures IsSortOf(ts, sorted)
  {
    if ts == [] {
      sorted := [];
    } else {
      var n := |ts| - 1;
      var rest := SortExists(ts[..n]);
      var k := PlaceFor(rest, ts[n].memory);
      InsertKeepsAll(rest, ts[n], k);
      InsertKeepsOrder(rest, ts[n], k);
      sorted := rest[..k] + [ts[n]] + rest[k..];
      assert ts == ts[..n] + [ts[n]];
    }
  }

  lemma {:induction false} PlaceFor(ts: seq<Template>, memory: int) returns (k: nat)
    ensures k <= |ts| && (forall i :: 0 <= i < k ==> ts[i].memory <= memory)
    ensures k < |ts| ==> memory <= ts[k].memory
  {
    if ts == [] || memory <= ts[0].memory {
      k := 0;
    } else {
      var rest := PlaceFor(ts[1..], memory);
      k := rest + 1;
    }
  }

  function Total(ts: seq<Template>): int {
    if ts == [] then 0 else ts[0].memory + Total(ts[1..])
  }

  function Copies(t: Template, n: nat): seq<Template> { seq(n, _ => t) }

  lemma {:induction false} TotalAtLeast(ts: seq<Template>, least: int)
    requires forall i :: 0 <= i < |ts| ==> ts[i].memory >= least
    ensures Total(ts) >= |ts| * least
  {
    if ts != [] {
      TotalAtLeast(ts[1..], least);
    }
  }

  lemma {:induction false} TotalOfCopies(t: Template, n: nat)
    ensures Total(Copies(t, n)) == n * t.memory
  {
    if n > 0 {
      assert Copies(t, n)[1..] == Copies(t, n - 1);
      TotalOfCopies(t, n - 1);
    }
  }

  lemma QuotientIsLargest(n: nat, m: int, total: int)
    requires m > 0
    ensures n * m <= total <==> total >= 0 && n <= TruncDiv(total, m)
  {
    if total >= 0 {
      var q := total / m;
      assert q * m <= total < (q + 1) * m;
      if n <= q {
        assert n * m <= q * m;
      } else {
        assert n * m >= (q + 1) * m;
      }
    } else {
      assert n * m >= 0;
    }
  }

  /** The published count is the capacity of a card: no selection of templates, repeated at
      will, that fits the allocatable memory has more members, and that many copies of the
      smallest template do fit (unless the allocatable memory is negative, when nothing does). */
  lemma CountIsCapacity(config: VNPUConfig, node: Option<NodeConfig>, loaded: seq<Template>, chosen: seq<Template>)
    requires node == None || node.value.vDeviceCount <= 0
    requires IsSortOf(loaded, config.templates) && loaded != []
    requires forall t :: t in loaded ==> t.memory > 0
    requires forall t :: t in chosen ==> t in loaded
    ensures config.templates != [] && config.templates[0].memory > 0
    ensures var count := VDeviceCount(config, node);
      && count.Some?
      && (Total(chosen) <= config.memoryAllocatable ==> |chosen| <= count.value)
      && (count.value >= 0 ==>
            (Total(Copies(config.templates[0], count.value)) <= config.memoryAllocatable
             <==> config.memoryAllocatable >= 0))
  {
    var ts := config.templates;
    assert |multiset(ts)| == |multiset(loaded)|;
    assert forall t :: t in ts <==> t in multiset(ts);
    assert forall t :: t in loaded <==> t in multiset(loaded);
    var least := ts[0].memory;
    assert ts[0] in loaded;
    forall i | 0 <= i < |chosen| ensures chosen[i].memory >= least {
      assert chosen[i] in loaded;
      assert chosen[i] in ts;
      var j :| 0 <= j < |ts| && ts[j] == chosen[i];
    }
    TotalAtLeast(chosen, least);
    QuotientIsLargest(|chosen|, least, config.memoryAllocatable);
    var count := TruncDiv(config.memoryAllocatable, least);
    if count >= 0 {
      TotalOfCopies(ts[0], count);
      QuotientIsLargest(count, least, config.memoryAllocatable);
    }
  }

  /** A positive count set for the node counts, whatever the templates; without it an entry
      without templates counts one, and one whose smallest template has no size none at all. */
  lemma CountOtherwise(config: VNPUConfig, node: Option<NodeConfig>)
    ensures node.Some? && node.value.vDeviceCount > 0 ==> VDeviceCount(config, node) == Some(node.value.vDeviceCount)
    ensures !(node.Some? && node.value.vDeviceCount > 0) && config.templates == [] ==>
      VDeviceCount(config, node) == Some(1)
    ensures VDeviceCount(config, node) == None <==>
      !(node.Some? && node.value.vDeviceCount > 0) && config.templates != [] && config.templates[0].memory == 0
  {
  }

  /** The quotient with a remainder smaller than the divisor, of the sign of the dividend. */
  lemma TruncDivIs(a: int, b: int) returns (r: int)
    requires b != 0
    ensures a == TruncDiv(a, b) * b + r
    ensures (a >= 0 ==> r >= 0) && (a <= 0 ==> r <= 0)
    ensures -b < r < b || b < r < -b
  {
    r := if a >= 0 then a % b else -((-a) % b);
    var m := if a >= 0 then a else -a;
    assert m == (m / b) * b + m % b;
  }

  // ----- the hardware

  datatype VDev = VDev(id: nat, isContainerUsed: int)

  /** The answers to the per-device queries; None is a query error. */
  datatype Answers = Answers(
    phyID: Option<int>,
    cardDevice: Option<(int, int)>,
    die: Option<string>,
    health: Option<int>,
    vdevs: Option<seq<VDev>>)

  /** The hardware as seen by one loop: the logic IDs, the answers per logic ID, and which
      destroy requests succeed. */
  datatype Hardware = Hardware(ids: Option<seq<int>>, probe: int -> Answers, destroys: (int, nat) -> bool)

  predicate ChecksIgnored(node: Option<NodeConfig>) {
    node.Some? && !(node.value.filter.uuids == [] && node.value.filter.indices == [])
  }

  predicate Ignored(node: Option<NodeConfig>, uuid: string, index: int) {
    node.Some? && ((uuid != "" && uuid in node.value.filter.uuids) || index in node.value.filter.indices)
  }

  /** The UUID, if there is one, or the index stands somewhere in the node's lists. */
  predicate Listed(filter: FilterDevices, uuid: string, index: int) {
    || (uuid != "" && exists k :: 0 <= k < |filter.uuids| && filter.uuids[k] == uuid)
    || exists k :: 0 <= k < |filter.indices| && filter.indices[k] == index
  }

  /** One device of the refreshed cache: an error, or nothing for an ignored device. */
  function Examine(hw: Hardware, node: Option<NodeConfig>, config: VNPUConfig, id: int): Result<Option<Device>, ()> {
    var a := hw.probe(id);
    if a.phyID == None || a.cardDevice == None || a.die == None then Err(())
    else if Ignored(node, a.die.value, a.cardDevice.value.0) then Ok(None)
    else if a.health == None then Err(())
    else Ok(Some(Device(a.die.value, id, a.phyID.value, a.cardDevice.value.0, a.cardDevice.value.1,
                        config.memoryAllocatable, config.aiCore, a.health.value == 0)))
  }

  function Refreshed(hw: Hardware, node: Option<NodeConfig>, config: VNPUConfig, ids: seq<int>)
    : Result<seq<Device>, ()>
  {
    if ids == [] then Ok([])
    else
      match Refreshed(hw, node, config, ids[..|ids| - 1])
      case Err(_) => Err(())
      case Ok(devs) =>
        match Examine(hw, node, config, ids[|ids| - 1])
        case Err(_) => Err(())
        case Ok(None) => Ok(devs)
        case Ok(Some(d)) => Ok(devs + [d])
  }

  /** A device that the lenient loops look at: its queries answer and it is not ignored. */
  predicate Visible(hw: Hardware, node: Option<NodeConfig>, id: int) {
    var a := hw.probe(id);
    && a.cardDevice.Some?
    && (node.Some? && node.value.filter.uuids != [] ==> a.die.Some?)
    && !Ignored(node, if node.Some? && node.value.filter.uuids != [] then a.die.value else "", a.cardDevice.value.0)
  }

  function VisibleIDs(hw: Hardware, node: Option<NodeConfig>, ids: seq<int>): seq<int> {
    if ids == [] then []
    else
      var last := ids[|ids| - 1];
      VisibleIDs(hw, node, ids[..|ids| - 1]) + if Visible(hw, node, last) then [last] else []
  }

  predicate Unhealthy(hw: Hardware, id: int) {
    hw.probe(id).health.Some? && hw.probe(id).health.value != 0
  }

  function UnhealthyIDs(hw: Hardware, node: Option<NodeConfig>, ids: seq<int>): seq<int> {
    if ids == [] then []
    else
      var last := ids[|ids| - 1];
      UnhealthyIDs(hw, node, ids[..|ids| - 1])
        + if (ChecksIgnored(node) ==> Visible(hw, node, last)) && Unhealthy(hw, last) then [last] else []
  }

  /** The idle vNPUs among `vdevs`, as (logic ID, vNPU ID) pairs in order. */
  function IdleOf(id: int, vdevs: seq<VDev>): seq<(int, nat)> {
    if vdevs == [] then []
    else
      var last := vdevs[|vdevs| - 1];
      IdleOf(id, vdevs[..|vdevs| - 1]) + if last.isContainerUsed == 0 then [(id, last.id)] else []
  }

  function IdleOn(hw: Hardware, id: int): seq<(int, nat)> {
    if hw.probe(id).vdevs == None then [] else IdleOf(id, hw.probe(id).vdevs.value)
  }

  function IdleAmong(hw: Hardware, ids: seq<int>): seq<(int, nat)> {
    if ids == [] then [] else IdleAmong(hw, ids[..|ids| - 1]) + IdleOn(hw, ids[|ids| - 1])
  }

  function CountDestroyed(hw: Hardware, targets: seq<(int, nat)>): nat {
    if targets == [] then 0
    else
      var last := targets[|targets| - 1];
      CountDestroyed(hw, targets[..|targets| - 1]) + if hw.destroys(last.0, last.1) then 1 else 0
  }

  lemma VisibleNext(hw: Hardware, node: Option<NodeConfig>, ids: seq<int>, k: nat)
    requires k < |ids|
    ensures IdleAmong(hw, VisibleIDs(hw, node, ids[..k + 1]))
         == IdleAmong(hw, VisibleIDs(hw, node, ids[..k])) + if Visible(hw, node, ids[k]) then IdleOn(hw, ids[k]) else []
  {
    var upTo, visible := ids[..k + 1], VisibleIDs(hw, node, ids[..k]);
    assert upTo[..|upTo| - 1] == ids[..k];
    if Visible(hw, node, ids[k]) {
      assert (visible + [ids[k]])[..|visible|] == visible;
    } else {
      assert visible + [] == visible;
    }
  }

  lemma {:induction false} CountSplits(hw: Hardware, a: seq<(int, nat)>, b: seq<(int, nat)>)
    ensures CountDestroyed(hw, a + b) == CountDestroyed(hw, a) + CountDestroyed(hw, b)
  {
    if b == [] {
      assert a + b == a;
    } else {
      assert (a + b)[..|a + b| - 1] == a + b[..|b| - 1];
      CountSplits(hw, a, b[..|b| - 1]);
    }
  }

  function StaleWords(configs: seq<VNPUConfig>, config: VNPUConfig): seq<string> {
    if configs == [] then []
    else
      var c := configs[|configs| - 1];
      var before := StaleWords(configs[..|configs| - 1], config);
      if c.commonWord != "" && c.commonWord != config.commonWord && c.chipName != "" && c.chipName == config.chipName
      then before + [c.commonWord] else before
  }

  // ----- the manager

  /** `config` is the selected entry with its templates sorted; the list shares them. */
  ghost predicate LoadedFrom(file: seq<VNPUConfig>, chip: Chip, config: VNPUConfig, configs: seq<VNPUConfig>, r: int) {
    && IsSelection(file, chip, r) && r != -1
    && IsSortOf(file[r].templates, config.templates)
    && config == file[r].(templates := config.templates)
    && configs == file[r := config]
  }

  /** Loading keeps every figure of the selected entry and all its templates, smallest first, and
      every other entry of the file. */
  lemma LoadedIs(file: seq<VNPUConfig>, chip: Chip, config: VNPUConfig, configs: seq<VNPUConfig>, r: int)
    requires LoadedFrom(file, chip, config, configs, r)
    ensures 0 <= r < |file| == |configs| && IsSelection(file, chip, r)
    ensures config.commonWord == file[r].commonWord && config.chipName == file[r].chipName
    ensures config.devType == file[r].devType && config.aiCore == file[r].aiCore
    ensures config.memoryAllocatable == file[r].memoryAllocatable
    ensures forall t :: multiset(config.templates)[t] == multiset(file[r].templates)[t]
    ensures forall i, j :: 0 <= i < j < |config.templates| ==> config.templates[i].memory <= config.templates[j].memory
    ensures configs[r] == config && forall i :: 0 <= i < |file| && i != r ==> configs[i] == file[i]
  {
  }

  class AscendManager {
    var config: VNPUConfig
    var configs: seq<VNPUConfig>
    var nodeConfig: Option<NodeConfig>
    var devs: seq<Device>

    constructor (node: Option<NodeConfig>)
      ensures devs == [] && configs == [] && nodeConfig == node
    {
      config := VNPUConfig("", "", "", 0, 0, 0, 0, []);
      configs := [];
      nodeConfig := node;
      devs := [];
    }

    /** `file` is None when the config file cannot be loaded, `chipType` when the chip cannot
        be queried. Fails, changing nothing, on either, on a foreign chip, or when no entry
        matches. */
    method LoadConfig(file: Option<seq<VNPUConfig>>, chipType: Option<string>, chip: Chip) returns (ok: bool)
      modifies `config, `configs
      ensures ok <==>
        (file.Some? && chipType == Some("Ascend") && exists i :: 0 <= i < |file.value| && Matches(file.value[i], chip))
      ensures !ok ==> config == old(config) && configs == old(configs)
      ensures ok ==> exists r :: LoadedFrom(file.value, chip, config, configs, r)
    {
      if file == None || chipType == None || chipType.value != "Ascend" {
        return false;
      }
      var entries := file.value;
      var idx := IndexVNPUConfig(entries, chip);
      SelectionRule(entries, chip, idx);
      if idx == -1 {
        return false;
      }
      ghost var s := SortExists(entries[idx].templates);
      var sorted :| IsSortOf(entries[idx].templates, sorted);
      config := entries[idx].(templates := sorted);
      configs := entries[idx := config];
      assert LoadedFrom(entries, chip, config, configs, idx);
      return true;
    }

    method ShouldIgnoreDevice(uuid: string, index: int) returns (ignored: bool)
      ensures ignored <==> Ignored(nodeConfig, uuid, index)
      ensures ignored <==> nodeConfig.Some? && Listed(nodeConfig.value.filter, uuid, index)
    {
      if !ChecksIgnored(nodeConfig) {
        return false;
      }
      var filter := nodeConfig.value.filter;
      for k := 0 to |filter.uuids|
        invariant uuid != "" ==> uuid !in filter.uuids[..k]
      {
        if uuid != "" && uuid == filter.uuids[k] {
          return true;
        }
      }
      for k := 0 to |filter.indices|
        invariant index !in filter.indices[..k]
      {
        if index == filter.indices[k] {
          return true;
        }
      }
      return false;
    }

    /** All or nothing: any query error leaves the cache as it was. */
    method UpdateDevice(hw: Hardware) returns (ok: bool)
      modifies `devs
      ensures ok <==> hw.ids.Some? && Refreshed(hw, nodeConfig, config, hw.ids.value).Ok?
      ensures devs == if ok then Refreshed(hw, nodeConfig, config, hw.ids.value).value else old(devs)
    {
      if hw.ids == None {
        return false;
      }
      var ids := hw.ids.value;
      var newDevs: seq<Device> := [];
      for k := 0 to |ids|
        invariant Refreshed(hw, nodeConfig, config, ids[..k]) == Ok(newDevs)
        invariant devs == old(devs)
      {
        var a := hw.probe(ids[k]);
        RefreshedNext(hw, nodeConfig, config, ids, k);
        if a.phyID == None || a.cardDevice == None || a.die == None {
          return false;
        }
        var (cardID, deviceID) := a.cardDevice.value;
        var ignored := ShouldIgnoreDevice(a.die.value, cardID);
        if ignored {
          continue;
        }
        if a.health == None {
          return false;
        }
        newDevs := newDevs + [Device(a.die.value, ids[k], a.phyID.value, cardID, deviceID,
                                     config.memoryAllocatable, config.aiCore, a.health.value == 0)];
      }
      assert ids[..|ids|] == ids;
      devs := newDevs;
      return true;
    }

    method GetIDs(hw: Hardware) returns (available: seq<int>)
      ensures available == if hw.ids == None then []
        else if !ChecksIgnored(nodeConfig) then hw.ids.value
        else VisibleIDs(hw, nodeConfig, hw.ids.value)
    {
      if hw.ids == None {
        return [];
      }
      var ids := hw.ids.value;
      if !ChecksIgnored(nodeConfig) {
        return ids;
      }
      available := [];
      for k := 0 to |ids|
        invariant available == VisibleIDs(hw, nodeConfig, ids[..k])
      {
        assert ids[..k + 1][..k] == ids[..k];
        var a := hw.probe(ids[k]);
        if a.cardDevice == None {
          continue;
        }
        var uuid := "";
        if nodeConfig.value.filter.uuids != [] {
          if a.die == None {
            continue;
          }
          uuid := a.die.value;
        }
        var ignored := ShouldIgnoreDevice(uuid, a.cardDevice.value.0);
        if !ignored {
          available := available + [ids[k]];
        }
      }
      assert ids[..|ids|] == ids;
    }

    method GetUnHealthIDs(hw: Hardware) returns (unhealthy: seq<int>)
      ensures unhealthy == if hw.ids == None then []
        else UnhealthyIDs(hw, nodeConfig, hw.ids.value)
    {
      if hw.ids == None {
        return [];
      }
      var ids := hw.ids.value;
      var filterDevicesEnabled := ChecksIgnored(nodeConfig);
      unhealthy := [];
      for k := 0 to |ids|
        invariant unhealthy == UnhealthyIDs(hw, nodeConfig, ids[..k])
      {
        assert ids[..k + 1][..k] == ids[..k];
        var a := hw.probe(ids[k]);
        if filterDevicesEnabled {
          if a.cardDevice == None {
            continue;
          }
          var uuid := "";
          if nodeConfig.value.filter.uuids != [] {
            if a.die == None {
              continue;
            }
            uuid := a.die.value;
          }
          var ignored := ShouldIgnoreDevice(uuid, a.cardDevice.value.0);
          if ignored {
            continue;
          }
        }
        if a.health == None {
          continue;
        }
        if a.health.value != 0 {
          unhealthy := unhealthy + [ids[k]];
        }
      }
      assert ids[..|ids|] == ids;
    }

    /** The inner loop over the vNPUs of one device. */
    method DestroyIdle(hw: Hardware, id: int, vdevs: seq<VDev>) returns (issued: seq<(int, nat)>, destroyed: nat)
      ensures issued == IdleOf(id, vdevs)
      ensures destroyed == CountDestroyed(hw, issued)
    {
      issued, destroyed := [], 0;
      for v := 0 to |vdevs|
        invariant issued == IdleOf(id, vdevs[..v])
        invariant destroyed == CountDestroyed(hw, issued)
      {
        assert vdevs[..v + 1][..v] == vdevs[..v];
        if vdevs[v].isContainerUsed == 0 {
          var more := issued + [(id, vdevs[v].id)];
          assert more[..|issued|] == issued;
          issued := more;
          if hw.destroys(id, vdevs[v].id) {
            destroyed := destroyed + 1;
          }
        }
      }
      assert vdevs[..|vdevs|] == vdevs;
    }

    /** `targets` are the vNPUs a destroy request is issued for, in order. */
    method CleanupIdleVNPUs(hw: Hardware) returns (ok: bool, targets: seq<(int, nat)>, cleaned: nat)
      ensures ok <==> hw.ids.Some?
      ensures targets == if ok then IdleAmong(hw, VisibleIDs(hw, nodeConfig, hw.ids.value)) else []
      ensures cleaned == CountDestroyed(hw, targets)
    {
      targets, cleaned := [], 0;
      if hw.ids == None {
        return false, targets, cleaned;
      }
      var ids := hw.ids.value;
      for k := 0 to |ids|
        invariant targets == IdleAmong(hw, VisibleIDs(hw, nodeConfig, ids[..k]))
        invariant cleaned == CountDestroyed(hw, targets)
      {
        var id := ids[k];
        VisibleNext(hw, nodeConfig, ids, k);
        var a := hw.probe(id);
        if a.cardDevice == None {
          continue;
        }
        var uuid := "";
        if ChecksIgnored(nodeConfig) && nodeConfig.value.filter.uuids != [] {
          if a.die == None {
            continue;
          }
          uuid := a.die.value;
        }
        var ignored := ShouldIgnoreDevice(uuid, a.cardDevice.value.0);
        if ignored {
          continue;
        }
        if a.vdevs == None {
          continue;
        }
        var issued, destroyed := DestroyIdle(hw, id, a.vdevs.value);
        CountSplits(hw, targets, issued);
        targets, cleaned := targets + issued, cleaned + destroyed;
      }
      assert ids[..|ids|] == ids;
      return true, targets, cleaned;
    }

    method StaleRegisterCommonWords() returns (out: seq<string>)
      ensures out == StaleWords(configs, config)
    {
      out := [];
      for k := 0 to |configs|
        invariant out == StaleWords(configs[..k], config)
      {
        assert configs[..k + 1][..k] == configs[..k];
        var c := configs[k];
        if c.commonWord == "" || c.commonWord == config.commonWord {
          continue;
        }
        if c.chipName != "" && c.chipName == config.chipName {
          out := out + [c.commonWord];
        }
      }
      assert configs[..|configs|] == configs;
    }
  }

  /** An error at device `k` is an error of the whole refresh. */
  lemma {:induction false} RefreshedNext(hw: Hardware, node: Option<NodeConfig>, config: VNPUConfig,
                                         ids: seq<int>, k: nat)
    requires k < |ids|
    ensures Refreshed(hw, node, config, ids[..k + 1]) ==
      match Refreshed(hw, node, config, ids[..k])
      case Err(_) => Err(())
      case Ok(devs) =>
        match Examine(hw, node, config, ids[k])
        case Err(_) => Err(())
        case Ok(None) => Ok(devs)
        case Ok(Some(d)) => Ok(devs + [d])
    ensures Refreshed(hw, node, config, ids[..k + 1]).Err? ==> Refreshed(hw, node, config, ids).Err?
    decreases |ids|
  {
    assert ids[..k + 1][..k] == ids[..k];
    if k == |ids| - 1 {
      assert ids[..k + 1] == ids;
    } else {
      var front := ids[..|ids| - 1];
      assert front[..k + 1] == ids[..k + 1] && front[..k] == ids[..k];
      RefreshedNext(hw, node, config, front, k);
    }
  }

  // ----- the four loops agree

  function LogicIDs(devs: seq<Device>): (ids: seq<int>)
    ensures |ids| == |devs|
  {
    seq(|devs|, k requires 0 <= k < |devs| => devs[k].logicID)
  }

  function UnhealthyOnes(devs: seq<Device>): seq<Device> {
    if devs == [] then []
    else UnhealthyOnes(devs[..|devs| - 1]) + if devs[|devs| - 1].health then [] else [devs[|devs| - 1]]
  }

  lemma ExaminedIsVisible(hw: Hardware, node: Option<NodeConfig>, config: VNPUConfig, id: int)
    requires Examine(hw, node, config, id).Ok?
    ensures var r := Examine(hw, node, config, id).value;
      && (r.Some? <==> Visible(hw, node, id))
      && (r == None ==> ChecksIgnored(node))
      && (r.Some? ==> r.value.logicID == id && (r.value.health <==> !Unhealthy(hw, id)))
  {
  }

  lemma CacheSnoc(devs: seq<Device>, d: Device)
    ensures LogicIDs(devs + [d]) == LogicIDs(devs) + [d.logicID]
  {
  }

  lemma UnhealthySnoc(devs: seq<Device>, d: Device)
    ensures LogicIDs(UnhealthyOnes(devs + [d]))
         == LogicIDs(UnhealthyOnes(devs)) + if d.health then [] else [d.logicID]
  {
    assert (devs + [d])[..|devs|] == devs;
    CacheSnoc(UnhealthyOnes(devs), d);
  }

  lemma RefreshedSnoc(hw: Hardware, node: Option<NodeConfig>, config: VNPUConfig, ids: seq<int>)
    requires ids != [] && Refreshed(hw, node, config, ids).Ok?
    ensures var front, last := ids[..|ids| - 1], ids[|ids| - 1];
      && Refreshed(hw, node, config, front).Ok? && Examine(hw, node, config, last).Ok?
      && Refreshed(hw, node, config, ids).value == Refreshed(hw, node, config, front).value
           + if Examine(hw, node, config, last).value.Some? then [Examine(hw, node, config, last).value.value] else []
  {
  }

  lemma {:induction false} VisibleAgree(hw: Hardware, node: Option<NodeConfig>, config: VNPUConfig, ids: seq<int>)
    requires Refreshed(hw, node, config, ids).Ok?
    ensures var cached := LogicIDs(Refreshed(hw, node, config, ids).value);
      cached == VisibleIDs(hw, node, ids) && (!ChecksIgnored(node) ==> cached == ids)
  {
    if ids != [] {
      var front, last := ids[..|ids| - 1], ids[|ids| - 1];
      RefreshedSnoc(hw, node, config, ids);
      VisibleAgree(hw, node, config, front);
      ExaminedIsVisible(hw, node, config, last);
      var found := Examine(hw, node, config, last).value;
      if found.Some? {
        CacheSnoc(Refreshed(hw, node, config, front).value, found.value);
      }
    }
  }

  lemma {:induction false} UnhealthyAgree(hw: Hardware, node: Option<NodeConfig>, config: VNPUConfig, ids: seq<int>)
    requires Refreshed(hw, node, config, ids).Ok?
    ensures LogicIDs(UnhealthyOnes(Refreshed(hw, node, config, ids).value)) == UnhealthyIDs(hw, node, ids)
  {
    if ids != [] {
      var front, last := ids[..|ids| - 1], ids[|ids| - 1];
      RefreshedSnoc(hw, node, config, ids);
      UnhealthyAgree(hw, node, config, front);
      ExaminedIsVisible(hw, node, config, last);
      var before, found := Refreshed(hw, node, config, front).value, Examine(hw, node, config, last).value;
      if found.Some? {
        UnhealthySnoc(before, found.value);
      } else {
        assert before + [] == before;
      }
    }
  }

  /** Whenever a refresh succeeds, the devices it caches are exactly those the other three
      loops work on, although each of them stages the filter differently: the available IDs,
      the unhealthy ones in order, and the devices whose idle vNPUs are cleaned up. */
  lemma LoopsAgree(hw: Hardware, node: Option<NodeConfig>, config: VNPUConfig, ids: seq<int>)
    requires Refreshed(hw, node, config, ids).Ok?
    ensures var devs := Refreshed(hw, node, config, ids).value;
      && LogicIDs(devs) == (if !ChecksIgnored(node) then ids else VisibleIDs(hw, node, ids))
      && LogicIDs(UnhealthyOnes(devs)) == UnhealthyIDs(hw, node, ids)
      && IdleAmong(hw, LogicIDs(devs)) == IdleAmong(hw, VisibleIDs(hw, node, ids))
  {
    VisibleAgree(hw, node, config, ids);
    UnhealthyAgree(hw, node, config, ids);
  }

  /** A refresh succeeds exactly when every device answers the identity queries and every
      device that is not ignored answers the health query. */
  lemma {:induction false} RefreshOkIff(hw: Hardware, node: Option<NodeConfig>, config: VNPUConfig, ids: seq<int>)
    ensures Refreshed(hw, node, config, ids).Ok? <==> forall k :: 0 <= k < |ids| ==>
      var a := hw.probe(ids[k]);
      && a.phyID.Some? && a.cardDevice.Some? && a.die.Some?
      && (Ignored(node, a.die.value, a.cardDevice.value.0) || a.health.Some?)
  {
    if ids != [] {
      var front := ids[..|ids| - 1];
      RefreshOkIff(hw, node, config, front);
      assert forall k :: 0 <= k < |front| ==> front[k] == ids[k];
    }
  }

  /** Every cached device carries the answers its own ID gave and the entry's memory and core
      figures, and is not an ignored one. */
  lemma {:induction false} CachedFields(hw: Hardware, node: Option<NodeConfig>, config: VNPUConfig,
                                        ids: seq<int>, k: nat)
    requires Refreshed(hw, node, config, ids).Ok? && k < |Refreshed(hw, node, config, ids).value|
    ensures var d := Refreshed(hw, node, config, ids).value[k];
      var a := hw.probe(d.logicID);
      && d.logicID in ids
      && a.die == Some(d.uuid) && a.phyID == Some(d.phyID) && a.cardDevice == Some((d.cardID, d.deviceID))
      && d.memory == config.memoryAllocatable && d.aiCore == config.aiCore
      && a.health.Some? && (d.health <==> a.health.value == 0)
      && !Ignored(node, d.uuid, d.cardID)
  {
    var front := ids[..|ids| - 1];
    RefreshedSnoc(hw, node, config, ids);
    if k < |Refreshed(hw, node, config, front).value| {
      CachedFields(hw, node, config, front, k);
    }
  }

  /** Only idle vNPUs of the given devices are targeted, and all of them are. */
  lemma {:induction false} OnlyIdleTargeted(hw: Hardware, ids: seq<int>, id: int, v: nat)
    ensures (id, v) in IdleAmong(hw, ids) <==>
      id in ids && hw.probe(id).vdevs.Some? &&
      exists k :: 0 <= k < |hw.probe(id).vdevs.value| && hw.probe(id).vdevs.value[k].id == v
                  && hw.probe(id).vdevs.value[k].isContainerUsed == 0
  {
    if ids != [] {
      var last := ids[|ids| - 1];
      OnlyIdleTargeted(hw, ids[..|ids| - 1], id, v);
      assert ids == ids[..|ids| - 1] + [last];
      if hw.probe(last).vdevs.Some? {
        IdleOfExact(last, hw.probe(last).vdevs.value, id, v);
      }
    }
  }

  lemma {:induction false} IdleOfExact(owner: int, vdevs: seq<VDev>, id: int, v: nat)
    ensures (id, v) in IdleOf(owner, vdevs) <==>
      id == owner && exists k :: 0 <= k < |vdevs| && vdevs[k].id == v && vdevs[k].isContainerUsed == 0
  {
    if vdevs != [] {
      var front := vdevs[..|vdevs| - 1];
      IdleOfExact(owner, front, id, v);
      assert forall k :: 0 <= k < |front| ==> front[k] == vdevs[k];
    }
  }

  // ----- the lenient loops under query errors

  /** The device's card number answers and is not listed, and neither is its UUID, which must
      answer only when some UUID is listed at all. */
  predicate PassesFilter(a: Answers, node: Option<NodeConfig>) {
    && a.cardDevice.Some?
    && (node.Some? ==>
          && a.cardDevice.value.0 !in node.value.filter.indices
          && (node.value.filter.uuids == []
              || (a.die.Some? && (a.die.value == "" || a.die.value !in node.value.filter.uuids))))
  }

  /** The loops that go on after a query error keep, in order, exactly the devices that pass. */
  lemma {:induction false} VisiblePicks(hw: Hardware, node: Option<NodeConfig>, ids: seq<int>)
    ensures Seqs.Picks(ids, id => PassesFilter(hw.probe(id), node), (id: int) => id, VisibleIDs(hw, node, ids))
  {
    var keep: int -> bool := id => PassesFilter(hw.probe(id), node);
    var view := (id: int) => id;
    if ids == [] {
      Seqs.PicksNone(keep, view);
    } else {
      VisiblePicks(hw, node, ids[..|ids| - 1]);
      Seqs.PicksSnoc(ids, keep, view, VisibleIDs(hw, node, ids[..|ids| - 1]));
    }
  }

  /** A device is unhealthy when its code answers and is not zero; without any filter it need not
      answer anything else. */
  predicate ReportsIll(a: Answers, node: Option<NodeConfig>) {
    && a.health.Some? && a.health.value != 0
    && (PassesFilter(a, node) || node == None || node.value.filter == FilterDevices([], []))
  }

  lemma {:induction false} UnhealthyPicks(hw: Hardware, node: Option<NodeConfig>, ids: seq<int>)
    ensures Seqs.Picks(ids, id => ReportsIll(hw.probe(id), node), (id: int) => id, UnhealthyIDs(hw, node, ids))
  {
    var keep: int -> bool := id => ReportsIll(hw.probe(id), node);
    var view := (id: int) => id;
    if ids == [] {
      Seqs.PicksNone(keep, view);
    } else {
      UnhealthyPicks(hw, node, ids[..|ids| - 1]);
      Seqs.PicksSnoc(ids, keep, view, UnhealthyIDs(hw, node, ids[..|ids| - 1]));
    }
  }

  /** Each idle vNPU of a device is targeted once, in order. */
  lemma {:induction false} IdlePicks(id: int, vdevs: seq<VDev>)
    ensures Seqs.Picks(vdevs, (v: VDev) => v.isContainerUsed == 0, (v: VDev) => (id, v.id), IdleOf(id, vdevs))
  {
    var keep, view := (v: VDev) => v.isContainerUsed == 0, (v: VDev) => (id, v.id);
    if vdevs == [] {
      Seqs.PicksNone(keep, view);
    } else {
      IdlePicks(id, vdevs[..|vdevs| - 1]);
      Seqs.PicksSnoc(vdevs, keep, view, IdleOf(id, vdevs[..|vdevs| - 1]));
    }
  }

  /** The devices' targets follow each other in the order of the devices. */
  lemma {:induction false} IdleSplits(hw: Hardware, a: seq<int>, b: seq<int>)
    ensures IdleAmong(hw, a + b) == IdleAmong(hw, a) + IdleAmong(hw, b)
  {
    if b == [] {
      assert a + b == a;
    } else {
      var front, last := b[..|b| - 1], b[|b| - 1];
      IdleSplits(hw, a, front);
      Seqs.LastApart(a, b);
      assert ((a + front) + [last])[..|a + front|] == a + front;
      Seqs.Assoc(IdleAmong(hw, a), IdleAmong(hw, front), IdleOn(hw, last));
    }
  }

  function Successes(hw: Hardware, targets: seq<(int, nat)>): set<nat> {
    set k: nat | k < |targets| && hw.destroys(targets[k].0, targets[k].1)
  }

  lemma SuccessesSnoc(hw: Hardware, targets: seq<(int, nat)>)
    requires targets != []
    ensures var n := |targets| - 1;
      n !in Successes(hw, targets[..n]) &&
      Successes(hw, targets) == Successes(hw, targets[..n]) +
        if hw.destroys(targets[n].0, targets[n].1) then {n} else {}
  {
    var n := |targets| - 1;
    assert forall k: nat :: k < n ==> targets[..n][k] == targets[k];
  }

  /** The count is the number of destroy requests that succeeded. */
  lemma {:induction false} CountIsSuccesses(hw: Hardware, targets: seq<(int, nat)>)
    ensures CountDestroyed(hw, targets) == |Successes(hw, targets)|
  {
    if targets != [] {
      CountIsSuccesses(hw, targets[..|targets| - 1]);
      SuccessesSnoc(hw, targets);
    }
  }

  // ----- stale common words

  /** The stale words are exactly the other words of entries that share the chip name. */
  lemma {:induction false} StaleWordsExact(configs: seq<VNPUConfig>, config: VNPUConfig, word: string)
    ensures word in StaleWords(configs, config) <==>
      word != "" && word != config.commonWord && config.chipName != "" &&
      exists i :: 0 <= i < |configs| && configs[i].commonWord == word && configs[i].chipName == config.chipName
  {
    if configs != [] {
      var front := configs[..|configs| - 1];
      StaleWordsExact(front, config, word);
      assert forall k :: 0 <= k < |front| ==> front[k] == configs[k];
    }
  }

  /** One for each such entry, in order. */
  lemma {:induction false} StaleWordsPicks(configs: seq<VNPUConfig>, config: VNPUConfig)
    ensures Seqs.Picks(configs,
      (c: VNPUConfig) => c.commonWord != "" && c.commonWord != config.commonWord && config.chipName == c.chipName != "",
      (c: VNPUConfig) => c.commonWord, StaleWords(configs, config))
  {
    var keep := (c: VNPUConfig) =>
      c.commonWord != "" && c.commonWord != config.commonWord && config.chipName == c.chipName != "";
    var view := (c: VNPUConfig) => c.commonWord;
    if configs == [] {
      Seqs.PicksNone(keep, view);
    } else {
      StaleWordsPicks(configs[..|configs| - 1], config);
      Seqs.PicksSnoc(configs, keep, view, StaleWords(configs[..|configs| - 1], config));
    }
  }
}
