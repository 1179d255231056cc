/** Aggregation of per-container memory readings into a map by device UUID. */
module MemoryMetrics {
  import opened ShmemLayout

  datatype ContainerEntry = ContainerEntry(
    namespace: string,
    podName: string,
    containerName: string,
    memoryLimit: nat,
    deviceMemory: seq<nat>,
    deviceUUIDs: seq<string>)

  /** One emitted pair of usage and limit, with its labels. */
  datatype Sample = Sample(
    namespace: string,
    podName: string,
    containerName: string,
    vdevice: nat,
    uuid: string,
    used: nat,
    limit: nat)

  /** The reading with the UUID's own index; UUIDs past the last reading count as zero. */
  function UsedAt(e: ContainerEntry, i: nat): nat {
    if i < |e.deviceMemory| then e.deviceMemory[i] else 0
  }

  function SampleAt(e: ContainerEntry, i: nat): Sample
    requires i < |e.deviceUUIDs|
  {
    Sample(e.namespace, e.podName, e.containerName, i, e.deviceUUIDs[i], UsedAt(e, i), e.memoryLimit)
  }

  function SamplesOf(e: ContainerEntry): (r: seq<Sample>)
    ensures |r| == |e.deviceUUIDs|
  {
    seq(|e.deviceUUIDs|, i requires 0 <= i < |e.deviceUUIDs| => SampleAt(e, i))
  }

  function AllSamples(entries: seq<ContainerEntry>): seq<Sample> {
    if entries == [] then []
    else AllSamples(entries[..|entries| - 1]) + SamplesOf(entries[|entries| - 1])
  }

  /** The effect of one sample on the map: the addition wraps at 64 bits, a missing key reads
      as zero, an empty UUID is skipped. */
  function Add(m: map<string, nat>, s: Sample): map<string, nat> {
    if s.uuid == "" then m else m[s.uuid := ((if s.uuid in m then m[s.uuid] else 0) + s.used) % TWO_64]
  }

  function AddAll(m: map<string, nat>, samples: seq<Sample>): map<string, nat> {
    if samples == [] then m
    else Add(AddAll(m, samples[..|samples| - 1]), samples[|samples| - 1])
  }

  /** The accumulated map. */
  function Tally(samples: seq<Sample>): map<string, nat> { AddAll(map[], samples) }

  lemma AddAllSnoc(m: map<string, nat>, samples: seq<Sample>, s: Sample)
    ensures AddAll(m, samples + [s]) == Add(AddAll(m, samples), s)
  {
    assert (samples + [s])[..|samples|] == samples;
  }

  lemma {:induction false} AddAllSplits(m: map<string, nat>, a: seq<Sample>, b: seq<Sample>)
    ensures AddAll(m, a + b) == AddAll(AddAll(m, a), b)
  {
    if b == [] {
      assert a + b == a;
    } else {
      var front, last := b[..|b| - 1], b[|b| - 1];
      AddAllSplits(m, a, front);
      AddAllSnoc(m, a + front, last);
      assert a + b == (a + front) + [last];
    }
  }

  /** The inner loop over one container. */
  method CollectContainer(e: ContainerEntry, before: map<string, nat>)
    returns (emitted: seq<Sample>, podMemByDevice: map<string, nat>)
    ensures emitted == SamplesOf(e)
    ensures podMemByDevice == AddAll(before, emitted)
  {
    emitted, podMemByDevice := [], before;
    for i := 0 to |e.deviceUUIDs|
      invariant |emitted| == i && forall k :: 0 <= k < i ==> emitted[k] == SampleAt(e, k)
      invariant podMemByDevice == AddAll(before, emitted)
    {
      var devUUID := e.deviceUUIDs[i];
      var memoryUsed := 0;
      if i < |e.deviceMemory| {
        memoryUsed := e.deviceMemory[i];
      }
      var sample := Sample(e.namespace, e.podName, e.containerName, i, devUUID, memoryUsed, e.memoryLimit);
      AddAllSnoc(before, emitted, sample);
      emitted := emitted + [sample];
      if devUUID != "" {
        var sum := if devUUID in podMemByDevice then podMemByDevice[devUUID] else 0;
        podMemByDevice := podMemByDevice[devUUID := (sum + memoryUsed) % TWO_64];
      }
    }
  }

  method CollectPodMetrics(entries: seq<ContainerEntry>)
    returns (emitted: seq<Sample>, podMemByDevice: map<string, nat>)
    ensures emitted == AllSamples(entries)
    ensures podMemByDevice == Tally(emitted)
  {
    emitted, podMemByDevice := [], map[];
    for k := 0 to |entries|
      invariant emitted == AllSamples(entries[..k])
      invariant podMemByDevice == Tally(emitted)
    {
      assert entries[..k + 1][..k] == entries[..k];
      var more: seq<Sample>;
      more, podMemByDevice := CollectContainer(entries[k], podMemByDevice);
      AddAllSplits(map[], emitted, more);
      emitted := emitted + more;
    }
    assert entries[..|entries|] == entries;
  }

  // ----- conservation

  /** Usage emitted under one UUID, over all containers and indices. */
  function UUIDTotal(samples: seq<Sample>, uuid: string): nat {
    if samples == [] then 0
    else
      var s := samples[|samples| - 1];
      UUIDTotal(samples[..|samples| - 1], uuid) + if s.uuid == uuid then s.used else 0
  }

  /** Usage emitted under any non-empty UUID. */
  function LabelledTotal(samples: seq<Sample>): nat {
    if samples == [] then 0
    else
      var s := samples[|samples| - 1];
      LabelledTotal(samples[..|samples| - 1]) + if s.uuid != "" then s.used else 0
  }

  predicate Appears(samples: seq<Sample>, uuid: string) {
    exists i :: 0 <= i < |samples| && samples[i].uuid == uuid
  }

  lemma AppearsSnoc(samples: seq<Sample>, uuid: string)
    requires samples != []
    ensures var n := |samples| - 1;
      Appears(samples, uuid) <==> Appears(samples[..n], uuid) || samples[n].uuid == uuid
  {
    var n := |samples| - 1;
    assert forall i :: 0 <= i < n ==> samples[..n][i] == samples[i];
  }

  lemma AddExact(m: map<string, nat>, s: Sample, uuid: string, total: nat)
    requires uuid in m ==> m[uuid] == total % TWO_64
    requires uuid !in m ==> total == 0
    requires uuid != ""
    ensures uuid in Add(m, s) <==> uuid in m || s.uuid == uuid
    ensures uuid in Add(m, s) ==> Add(m, s)[uuid] == (total + if s.uuid == uuid then s.used else 0) % TWO_64
  {
    AddWraps(total, s.used);
  }

  /** Each map entry is the total emitted under its UUID, modulo 2^64. */
  lemma {:induction false} TallyExact(samples: seq<Sample>, uuid: string)
    ensures uuid in Tally(samples) <==> uuid != "" && Appears(samples, uuid)
    ensures uuid in Tally(samples) ==> Tally(samples)[uuid] == UUIDTotal(samples, uuid) % TWO_64
    ensures !Appears(samples, uuid) ==> UUIDTotal(samples, uuid) == 0
  {
    if samples != [] {
      var n := |samples| - 1;
      TallyExact(samples[..n], uuid);
      AppearsSnoc(samples, uuid);
      if uuid != "" {
        AddExact(Tally(samples[..n]), samples[n], uuid, UUIDTotal(samples[..n], uuid));
      }
    }
  }

  predicate NoDuplicates(keys: seq<string>) {
    forall i, j :: 0 <= i < j < |keys| ==> keys[i] != keys[j]
  }

  function TotalOver(keys: seq<string>, samples: seq<Sample>): nat {
    if keys == [] then 0 else UUIDTotal(samples, keys[0]) + TotalOver(keys[1..], samples)
  }

  lemma {:induction false} TotalOverSnoc(keys: seq<string>, samples: seq<Sample>)
    requires samples != [] && NoDuplicates(keys)
    ensures var s := samples[|samples| - 1];
      TotalOver(keys, samples)
        == TotalOver(keys, samples[..|samples| - 1]) + if s.uuid in keys then s.used else 0
  {
    if keys != [] {
      TotalOverSnoc(keys[1..], samples);
      assert keys == [keys[0]] + keys[1..];
    }
  }

  /** Adding up by UUID loses nothing and counts nothing twice. */
  lemma {:induction false} TotalOverIsLabelled(keys: seq<string>, samples: seq<Sample>)
    requires NoDuplicates(keys) && "" !in keys
    requires forall i :: 0 <= i < |samples| && samples[i].uuid != "" ==> samples[i].uuid in keys
    ensures TotalOver(keys, samples) == LabelledTotal(samples)
  {
    if samples == [] {
      TotalOverNothing(keys);
    } else {
      var n := |samples| - 1;
      assert forall i :: 0 <= i < n ==> samples[..n][i] == samples[i];
      TotalOverIsLabelled(keys, samples[..n]);
      TotalOverSnoc(keys, samples);
    }
  }

  lemma {:induction false} TotalOverNothing(keys: seq<string>)
    ensures TotalOver(keys, []) == 0
  {
    if keys != [] {
      TotalOverNothing(keys[1..]);
    }
  }

  function MapTotal(keys: seq<string>, m: map<string, nat>): nat
    requires forall k :: k in keys ==> k in m
  {
    if keys == [] then 0 else m[keys[0]] + MapTotal(keys[1..], m)
  }

  predicate Overflows(keys: seq<string>, samples: seq<Sample>) {
    exists k :: 0 <= k < |keys| && UUIDTotal(samples, keys[k]) >= TWO_64
  }

  /** Per-key wrapping only ever loses, and loses nothing exactly when no key overflows. */
  lemma {:induction false} WrappedTotal(keys: seq<string>, samples: seq<Sample>)
    requires forall k :: k in keys ==> k in Tally(samples)
    ensures MapTotal(keys, Tally(samples)) <= TotalOver(keys, samples)
    ensures MapTotal(keys, Tally(samples)) % TWO_64 == TotalOver(keys, samples) % TWO_64
    ensures MapTotal(keys, Tally(samples)) == TotalOver(keys, samples) <==> !Overflows(keys, samples)
  {
    if keys != [] {
      var tail := keys[1..];
      WrappedTotal(tail, samples);
      TallyExact(samples, keys[0]);
      assert forall k :: 0 <= k < |tail| ==> tail[k] == keys[k + 1];
      assert Overflows(keys, samples) <==> UUIDTotal(samples, keys[0]) >= TWO_64 || Overflows(tail, samples);
      ModAdds(UUIDTotal(samples, keys[0]), MapTotal(tail, Tally(samples)), TotalOver(tail, samples));
    }
  }

  lemma ModAdds(x: nat, a: nat, b: nat)
    requires a % TWO_64 == b % TWO_64
    ensures (x % TWO_64 + a) % TWO_64 == (x + b) % TWO_64
    ensures x % TWO_64 <= x && (x % TWO_64 == x <==> x < TWO_64)
  {
    var q, qa, qb := x / TWO_64, a / TWO_64, b / TWO_64;
    assert x == TWO_64 * q + x % TWO_64 && a == TWO_64 * qa + a % TWO_64 && b == TWO_64 * qb + b % TWO_64;
    assert x + b == (x % TWO_64 + a) + TWO_64 * (q + qb - qa);
  }

  /** Conservation: summed over any enumeration of its keys the map equals the usage emitted
      for non-empty UUIDs modulo 2^64, and equals it outright exactly when no single UUID's
      total overflows. */
  lemma MemoryConserved(entries: seq<ContainerEntry>, keys: seq<string>)
    requires var m := Tally(AllSamples(entries));
      NoDuplicates(keys) && (forall k :: k in keys <==> k in m)
    ensures var samples := AllSamples(entries);
      && MapTotal(keys, Tally(samples)) % TWO_64 == LabelledTotal(samples) % TWO_64
      && (MapTotal(keys, Tally(samples)) == LabelledTotal(samples) <==> !Overflows(keys, samples))
  {
    var samples := AllSamples(entries);
    forall i | 0 <= i < |samples| && samples[i].uuid != "" ensures samples[i].uuid in keys {
      TallyExact(samples, samples[i].uuid);
    }
    TallyExact(samples, "");
    TotalOverIsLabelled(keys, samples);
    WrappedTotal(keys, samples);
  }

  // ----- the host view

  datatype DeviceStat = DeviceStat(index: nat, uuid: string, memoryUsed: nat)

  /** Bytes reported for a host device: the pods' total when there is one, else the driver's
      figure in MiB. */
  function HostUsed(d: DeviceStat, podMem: map<string, nat>): nat {
    if d.uuid in podMem && podMem[d.uuid] > 0 then podMem[d.uuid] else d.memoryUsed * 1024 * 1024
  }

  method CollectHostMetrics(devices: seq<DeviceStat>, podMem: map<string, nat>) returns (used: seq<nat>)
    ensures |used| == |devices|
    ensures forall i :: 0 <= i < |devices| ==> used[i] == HostUsed(devices[i], podMem)
  {
    used := [];
    for i := 0 to |devices|
      invariant |used| == i
      invariant forall k :: 0 <= k < i ==> used[k] == HostUsed(devices[k], podMem)
    {
      var hostUsed := devices[i].memoryUsed * 1024 * 1024;
      if devices[i].uuid in podMem && podMem[devices[i].uuid] > 0 {
        hostUsed := podMem[devices[i].uuid];
      }
      used := used + [hostUsed];
    }
  }

  /** A host device shows the pods' own figure, the usage under its UUID modulo 2^64, exactly
      when that is not zero: a UUID whose usage adds up to a multiple of 2^64 falls back to the
      driver's figure like one without any; an unlabelled device always does. */
  lemma HostShowsPods(samples: seq<Sample>, d: DeviceStat)
    ensures var shown := UUIDTotal(samples, d.uuid) % TWO_64;
      HostUsed(d, Tally(samples)) == if d.uuid != "" && shown > 0 then shown else d.memoryUsed * 1024 * 1024
  {
    TallyExact(samples, d.uuid);
  }
}
