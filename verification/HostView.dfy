/** One scrape from end to end: from the slots the containers' limiters wrote into their
    shared-memory files to the usage shown for the host's devices. */
module HostView {
  import opened Wrappers
  import opened ShmemLayout
  import opened MemoryMetrics
  import opened ContainerDirs
  import Allocation
  import Seqs

  /** What a limiter wrote. */
  datatype ShmemFile = ShmemFile(header: seq<Byte>, slots: seq<ProcSlot>, padding: seq<Byte>, rest: seq<Byte>)

  predicate ValidFile(f: ShmemFile) {
    && |f.header| == PROCS_OFFSET && |f.padding| == 4 && |f.rest| < PROC_SLOT_SIZE
    && forall i :: 0 <= i < |f.slots| ==> ValidSlot(f.slots[i])
  }

  /** The entry's shared-memory file, if it can be read, is the image of what was written. */
  predicate WrittenAs(entry: DirEntry, name: string, files: map<string, ShmemFile>) {
    entry.shmem.Some? ==>
      && name in files && ValidFile(files[name])
      && entry.shmem.value == Image(files[name].header, files[name].slots, files[name].padding, files[name].rest)
  }

  predicate Written(dirs: map<string, DirEntry>, files: map<string, ShmemFile>) {
    forall n :: n in dirs ==> WrittenAs(dirs[n], n, files)
  }

  // ----- usage as written

  /** Usage of device `d` by the processes of a container, the first 64 slots counting. */
  function DeviceUsed(slots: seq<ProcSlot>, d: nat): nat
    requires forall i :: 0 <= i < |slots| ==> ValidSlot(slots[i])
  {
    if d < HBM_DEVICES then SlotSum(slots, Min(|slots|, 64), d) else 0
  }

  /** Usage of the card `uuid` by a container whose `d`-th device is the card `uuids[d]`. */
  function CardUsed(uuids: seq<string>, slots: seq<ProcSlot>, uuid: string): nat
    requires forall i :: 0 <= i < |slots| ==> ValidSlot(slots[i])
  {
    if uuids == [] then 0
    else
      var n := |uuids| - 1;
      CardUsed(uuids[..n], slots, uuid) + if uuids[n] == uuid then DeviceUsed(slots, n) else 0
  }

  /** The same for one directory: that of a live container with at least one slot. */
  function DirUsed(byUID: map<string, Pod>, name: string, entry: DirEntry, files: map<string, ShmemFile>, uuid: string)
    : nat
    requires WrittenAs(entry, name, files)
  {
    var parts := SplitName(name);
    if !entry.isDir || parts == None || IsStale(byUID, name, true) || entry.shmem == None then 0
    else CardUsed(UUIDsOf(byUID[parts.value.0], parts.value.1), files[name].slots, uuid)
  }

  /** Usage of the card by all live containers. */
  function TotalUsed(byUID: map<string, Pod>, dirs: map<string, DirEntry>, files: map<string, ShmemFile>,
                     listing: seq<string>, uuid: string): nat
    requires Written(dirs, files) && forall n :: n in listing ==> n in dirs
  {
    if listing == [] then 0
    else
      var last := listing[|listing| - 1];
      TotalUsed(byUID, dirs, files, listing[..|listing| - 1], uuid) + DirUsed(byUID, last, dirs[last], files, uuid)
  }

  /** Counting by the kept UUIDs is counting by the annotation when no empty UUID stands before
      a non-empty one. */
  lemma {:induction false} KeptCountsAnnotated(uuids: seq<string>, slots: seq<ProcSlot>, uuid: string)
    requires forall i :: 0 <= i < |slots| ==> ValidSlot(slots[i])
    requires !GapBefore(uuids) && uuid != ""
    ensures CardUsed(NonEmpty(uuids), slots, uuid) == CardUsed(uuids, slots, uuid)
  {
    if uuids != [] {
      var n := |uuids| - 1;
      var front := uuids[..n];
      assert forall i :: 0 <= i < n ==> front[i] == uuids[i];
      if uuids[n] == "" {
        KeptCountsAnnotated(front, slots, uuid);
        assert NonEmpty(uuids) == NonEmpty(front);
      } else {
        assert forall i :: 0 <= i < |uuids| ==> uuids[i] != "";
        NonEmptyKeeps(uuids);
      }
    }
  }

  // ----- usage as shown

  lemma {:induction false} UUIDTotalSplits(a: seq<Sample>, b: seq<Sample>, uuid: string)
    ensures UUIDTotal(a + b, uuid) == UUIDTotal(a, uuid) + UUIDTotal(b, uuid)
  {
    if b == [] {
      assert a + b == a;
    } else {
      var n := |b| - 1;
      assert (a + b)[..|a + b| - 1] == a + b[..n] && (a + b)[|a + b| - 1] == b[n];
      UUIDTotalSplits(a, b[..n], uuid);
    }
  }

  /** The samples of a container whose readings are its slots' sums modulo 2^64. */
  lemma {:induction false} SamplesTotal(e: ContainerEntry, slots: seq<ProcSlot>, uuid: string, n: nat)
    requires forall i :: 0 <= i < |slots| ==> ValidSlot(slots[i])
    requires |e.deviceMemory| == HBM_DEVICES && n <= |e.deviceUUIDs|
    requires forall d :: 0 <= d < HBM_DEVICES ==> e.deviceMemory[d] == DeviceUsed(slots, d) % TWO_64
    ensures UUIDTotal(SamplesOf(e)[..n], uuid) % TWO_64 == CardUsed(e.deviceUUIDs[..n], slots, uuid) % TWO_64
  {
    if n > 0 {
      SamplesTotal(e, slots, uuid, n - 1);
      assert SamplesOf(e)[..n][..n - 1] == SamplesOf(e)[..n - 1];
      assert e.deviceUUIDs[..n][..n - 1] == e.deviceUUIDs[..n - 1];
      assert SamplesOf(e)[..n][n - 1] == SampleAt(e, n - 1);
      if e.deviceUUIDs[n - 1] == uuid {
        ModAdds(DeviceUsed(slots, n - 1), UUIDTotal(SamplesOf(e)[..n - 1], uuid),
                CardUsed(e.deviceUUIDs[..n - 1], slots, uuid));
        assert UsedAt(e, n - 1) == DeviceUsed(slots, n - 1) % TWO_64;
      }
    }
  }

  lemma {:induction false} NothingUsed(uuids: seq<string>, uuid: string)
    ensures CardUsed(uuids, [], uuid) == 0
  {
    if uuids != [] {
      NothingUsed(uuids[..|uuids| - 1], uuid);
    }
  }

  /** Usage emitted under one UUID for some containers. */
  function Emitted(entries: seq<ContainerEntry>, uuid: string): nat { UUIDTotal(AllSamples(entries), uuid) }

  /** The same for one container whose file holds what was written. */
  lemma FileTotal(e: ContainerEntry, f: ShmemFile, uuid: string)
    requires ValidFile(f) && e.deviceMemory == DeviceMemory(Image(f.header, f.slots, f.padding, f.rest))
    ensures Emitted([e], uuid) % TWO_64 == CardUsed(e.deviceUUIDs, f.slots, uuid) % TWO_64
  {
    forall d: nat | d < HBM_DEVICES ensures e.deviceMemory[d] == DeviceUsed(f.slots, d) % TWO_64 {
      ReadBack(f.header, f.slots, f.padding, f.rest, d);
    }
    var n := |e.deviceUUIDs|;
    SamplesTotal(e, f.slots, uuid, n);
    AllSamplesSnoc([], e);
    assert [] + [e] == [e] && [] + SamplesOf(e) == SamplesOf(e);
    assert SamplesOf(e)[..n] == SamplesOf(e) && e.deviceUUIDs[..n] == e.deviceUUIDs;
  }

  /** What the scrape emits for one directory adds up to what was written there. */
  lemma ReportTotal(byUID: map<string, Pod>, name: string, entry: DirEntry, files: map<string, ShmemFile>, uuid: string)
    requires WrittenAs(entry, name, files)
    ensures Emitted(ReportFor(byUID, name, entry), uuid) % TWO_64
         == DirUsed(byUID, name, entry, files, uuid) % TWO_64
  {
    var parts := SplitName(name);
    if entry.isDir && parts.Some? && !IsStale(byUID, name, true) && entry.shmem.Some? {
      if files[name].slots == [] {
        NothingUsed(UUIDsOf(byUID[parts.value.0], parts.value.1), uuid);
      } else {
        FileTotal(ReportFor(byUID, name, entry)[0], files[name], uuid);
      }
    }
  }

  lemma AllSamplesSnoc(a: seq<ContainerEntry>, e: ContainerEntry)
    ensures AllSamples(a + [e]) == AllSamples(a) + SamplesOf(e)
  {
    var more := a + [e];
    assert more[..|more| - 1] == a && more[|more| - 1] == e;
  }

  lemma {:induction false} AllSamplesSplit(a: seq<ContainerEntry>, b: seq<ContainerEntry>)
    ensures AllSamples(a + b) == AllSamples(a) + AllSamples(b)
  {
    if b == [] {
      assert a + b == a;
    } else {
      var front, last := b[..|b| - 1], b[|b| - 1];
      Seqs.LastApart(a, b);
      AllSamplesSplit(a, front);
      AllSamplesSnoc(a + front, last);
      Seqs.Assoc(AllSamples(a), AllSamples(front), SamplesOf(last));
    }
  }

  lemma EmittedSplits(a: seq<ContainerEntry>, b: seq<ContainerEntry>, uuid: string)
    ensures Emitted(a + b, uuid) == Emitted(a, uuid) + Emitted(b, uuid)
  {
    AllSamplesSplit(a, b);
    UUIDTotalSplits(AllSamples(a), AllSamples(b), uuid);
  }

  /** Over all directories the samples under one UUID add up to the usage written for the card. */
  lemma {:induction false} ReportsTotal(byUID: map<string, Pod>, dirs: map<string, DirEntry>,
                                        files: map<string, ShmemFile>, listing: seq<string>, uuid: string)
    requires Written(dirs, files) && forall n :: n in listing ==> n in dirs
    ensures Emitted(Reports(byUID, dirs, listing), uuid) % TWO_64
         == TotalUsed(byUID, dirs, files, listing, uuid) % TWO_64
  {
    if listing != [] {
      ReportsTotal(byUID, dirs, files, listing[..|listing| - 1], uuid);
      OneMoreDirectory(byUID, dirs, files, listing, uuid);
    }
  }

  lemma EmittedNext(byUID: map<string, Pod>, dirs: map<string, DirEntry>, listing: seq<string>, uuid: string)
    requires listing != [] && forall n :: n in listing ==> n in dirs
    ensures var last := listing[|listing| - 1];
      Emitted(Reports(byUID, dirs, listing), uuid) == Emitted(Reports(byUID, dirs, listing[..|listing| - 1]), uuid)
        + Emitted(ReportFor(byUID, last, dirs[last]), uuid)
  {
    var last := listing[|listing| - 1];
    EmittedSplits(Reports(byUID, dirs, listing[..|listing| - 1]), ReportFor(byUID, last, dirs[last]), uuid);
  }

  lemma OneMoreDirectory(byUID: map<string, Pod>, dirs: map<string, DirEntry>, files: map<string, ShmemFile>,
                         listing: seq<string>, uuid: string)
    requires Written(dirs, files) && listing != [] && forall n :: n in listing ==> n in dirs
    requires var front := listing[..|listing| - 1];
      Emitted(Reports(byUID, dirs, front), uuid) % TWO_64 == TotalUsed(byUID, dirs, files, front, uuid) % TWO_64
    ensures Emitted(Reports(byUID, dirs, listing), uuid) % TWO_64
         == TotalUsed(byUID, dirs, files, listing, uuid) % TWO_64
  {
    var front, last := listing[..|listing| - 1], listing[|listing| - 1];
    var emitted, more := Emitted(Reports(byUID, dirs, front), uuid), Emitted(ReportFor(byUID, last, dirs[last]), uuid);
    var total, used := TotalUsed(byUID, dirs, files, front, uuid), DirUsed(byUID, last, dirs[last], files, uuid);
    ReportTotal(byUID, last, dirs[last], files, uuid);
    EmittedNext(byUID, dirs, listing, uuid);
    SumsAgree(Emitted(Reports(byUID, dirs, listing), uuid), emitted, more,
              TotalUsed(byUID, dirs, files, listing, uuid), total, used);
  }

  lemma SumsAgree(x: nat, a: nat, c: nat, y: nat, b: nat, d: nat)
    requires x == a + c && y == b + d
    requires a % TWO_64 == b % TWO_64 && c % TWO_64 == d % TWO_64
    ensures x % TWO_64 == y % TWO_64
  {
    ModAdds(a, c, d);
    ModAdds(a, c, c);
    AddWraps(b, d);
  }

  predicate EmittedFor(byUID: map<string, Pod>, dirs: map<string, DirEntry>, name: string, s: Sample) {
    name in dirs && s in AllSamples(ReportFor(byUID, name, dirs[name]))
  }

  lemma SamplesSnoc(byUID: map<string, Pod>, dirs: map<string, DirEntry>, listing: seq<string>, s: Sample)
    requires listing != [] && forall n :: n in listing ==> n in dirs
    ensures s in AllSamples(Reports(byUID, dirs, listing)) <==>
      s in AllSamples(Reports(byUID, dirs, listing[..|listing| - 1]))
      || EmittedFor(byUID, dirs, listing[|listing| - 1], s)
  {
    var last := listing[|listing| - 1];
    AllSamplesSplit(Reports(byUID, dirs, listing[..|listing| - 1]), ReportFor(byUID, last, dirs[last]));
  }

  /** A sample is emitted exactly for some directory listed. */
  lemma {:induction false} SamplesByDirectory(byUID: map<string, Pod>, dirs: map<string, DirEntry>,
                                              listing: seq<string>, s: Sample)
    requires forall n :: n in listing ==> n in dirs
    ensures s in AllSamples(Reports(byUID, dirs, listing)) <==>
      exists n :: n in listing && EmittedFor(byUID, dirs, n, s)
  {
    if listing != [] {
      var front, last := listing[..|listing| - 1], listing[|listing| - 1];
      SamplesByDirectory(byUID, dirs, front, s);
      SamplesSnoc(byUID, dirs, listing, s);
      assert forall n :: n in listing <==> n in front || n == last;
    }
  }

  /** The entry that a live container's directory makes. */
  lemma LiveContainerReports(pods: seq<Pod>, i: nat, ctrName: string, entry: DirEntry)
    requires i < |pods| && LastListed(pods, pods[i].uid, i)
    requires pods[i].phase != Succeeded && pods[i].phase != Failed
    requires '_' !in pods[i].uid && entry.isDir && Readable(entry.shmem)
    ensures ReportFor(PodByUID(pods), Allocation.DirName(pods[i].uid, ctrName), entry) ==
      [ContainerEntry(pods[i].namespace, pods[i].name, ctrName, Stats(entry.shmem.value).memoryLimit,
                      DeviceMemory(entry.shmem.value), UUIDsOf(pods[i], ctrName))]
  {
    NameRoundTripIff(pods[i].uid, ctrName);
    PodByUIDExact(pods, pods[i].uid);
  }

  /** What a live container's directory shows: one sample for each UUID kept from its pod's
      annotation, labelled by pod and container, with the usage written for the device of the
      same number and the limit written in the header. */
  lemma LiveContainerShows(pods: seq<Pod>, i: nat, ctrName: string, h: Header, f: ShmemFile, k: nat)
    requires i < |pods| && LastListed(pods, pods[i].uid, i)
    requires pods[i].phase != Succeeded && pods[i].phase != Failed
    requires '_' !in pods[i].uid && ctrName in pods[i].annotated
    requires ValidFile(f) && ValidHeader(h) && f.header == EncodeHeader(h) && f.slots != []
    ensures var entry := DirEntry(true, Some(Image(f.header, f.slots, f.padding, f.rest)));
      var samples := AllSamples(ReportFor(PodByUID(pods), Allocation.DirName(pods[i].uid, ctrName), entry));
      var kept := NonEmpty(pods[i].annotated[ctrName]);
      && |samples| == |kept|
      && (k < |kept| ==> samples[k] == Sample(
            pods[i].namespace, pods[i].name, ctrName, k, kept[k], DeviceUsed(f.slots, k) % TWO_64, h.limit))
  {
    var data := Image(f.header, f.slots, f.padding, f.rest);
    LiveContainerReports(pods, i, ctrName, DirEntry(true, Some(data)));
    FileReads(h, f, k);
    EntryShows(ContainerEntry(pods[i].namespace, pods[i].name, ctrName, Stats(data).memoryLimit, DeviceMemory(data),
                              NonEmpty(pods[i].annotated[ctrName])), k);
  }

  lemma FileReads(h: Header, f: ShmemFile, k: nat)
    requires ValidFile(f) && ValidHeader(h) && f.header == EncodeHeader(h) && f.slots != []
    ensures var data := Image(f.header, f.slots, f.padding, f.rest);
      && |data| >= PROCS_OFFSET + PROC_SLOT_SIZE && Stats(data).memoryLimit == h.limit
      && (if k < HBM_DEVICES then DeviceMemory(data)[k] else 0) == DeviceUsed(f.slots, k) % TWO_64
  {
    ImageReadBack(h, f.slots, f.padding, f.rest, if k < HBM_DEVICES then k else 0);
  }

  lemma EntryShows(e: ContainerEntry, k: nat)
    ensures var samples := AllSamples([e]);
      && |samples| == |e.deviceUUIDs|
      && (k < |samples| ==> samples[k] == Sample(
            e.namespace, e.podName, e.containerName, k, e.deviceUUIDs[k],
            if k < |e.deviceMemory| then e.deviceMemory[k] else 0, e.memoryLimit))
  {
    AllSamplesSnoc([], e);
    assert [] + [e] == [e] && [] + SamplesOf(e) == SamplesOf(e);
  }

  /** The figure for a host device that containers use as `total` says. */
  function FigureFor(d: DeviceStat, total: nat): nat {
    if d.uuid != "" && total % TWO_64 > 0 then total % TWO_64 else d.memoryUsed * 1024 * 1024
  }

  /** End to end: a host device shows what the processes of all live containers wrote for its
      card, modulo 2^64, unless that is zero, when it shows the driver's figure. */
  lemma ScrapeShowsWritten(pods: seq<Pod>, dirs: map<string, DirEntry>, files: map<string, ShmemFile>,
                           listing: seq<string>, d: DeviceStat)
    requires Written(dirs, files) && forall n :: n in listing ==> n in dirs
    ensures HostUsed(d, Tally(AllSamples(Reports(PodByUID(pods), dirs, listing))))
         == FigureFor(d, TotalUsed(PodByUID(pods), dirs, files, listing, d.uuid))
  {
    ReportsTotal(PodByUID(pods), dirs, files, listing, d.uuid);
    HostShowsPods(AllSamples(Reports(PodByUID(pods), dirs, listing)), d);
  }

  /** One scrape. */
  method Collect(lister: ContainerLister, pods: seq<Pod>, listing: seq<string>, devices: seq<DeviceStat>,
                 ghost files: map<string, ShmemFile>)
    returns (used: seq<nat>)
    requires NoDuplicates(listing) && (forall n :: n in listing <==> n in lister.dirs) && Written(lister.dirs, files)
    modifies lister
    ensures |used| == |devices|
    ensures forall i :: 0 <= i < |devices| ==>
      used[i] == FigureFor(devices[i], TotalUsed(PodByUID(pods), old(lister.dirs), files, listing, devices[i].uuid))
    ensures forall n :: n in lister.dirs <==>
      n in old(lister.dirs) && !IsStale(PodByUID(pods), n, old(lister.dirs)[n].isDir)
    ensures RemovedWithPods(pods, old(lister.dirs), lister.dirs)
  {
    ghost var dirs := lister.dirs;
    var entries := lister.ListContainers(pods, listing);
    var emitted, podMemByDevice := CollectPodMetrics(entries);
    used := CollectHostMetrics(devices, podMemByDevice);
    forall i | 0 <= i < |devices|
      ensures used[i] == FigureFor(devices[i], TotalUsed(PodByUID(pods), dirs, files, listing, devices[i].uuid))
    {
      ScrapeShowsWritten(pods, dirs, files, listing, devices[i]);
    }
  }
}
