/** The per-container directories: named by Allocate, read back and cleaned up by the
    monitor's scrape. */
module ContainerDirs {
  import opened Wrappers
  import opened Allocation
  import opened AllocationRuns
  import opened MemoryMetrics
  import Seqs
  import ShmemLayout
  import Text

  // ----- directory names

  /** Splits at the first '_'; names without one belong to somebody else. */
  function SplitName(name: string): Option<(string, string)> {
    var i := Text.IndexOf(name, '_');
    if i == |name| then None else Some((name[..i], name[i + 1..]))
  }

  /** The monitor recovers pod UID and container name exactly when the UID has no '_'. */
  lemma NameRoundTripIff(podUID: string, ctrName: string)
    ensures SplitName(DirName(podUID, ctrName)) == Some((podUID, ctrName)) <==> '_' !in podUID
  {
    var name := DirName(podUID, ctrName);
    assert name[..|podUID|] == podUID && name[|podUID|] == '_' && name[|podUID| + 1..] == ctrName;
    if '_' !in podUID {
      Text.IndexOfIs(name, '_', |podUID|);
    } else {
      var k :| 0 <= k < |podUID| && podUID[k] == '_';
      assert name[k] == '_' && name[k] !in name[..Text.IndexOf(name, '_')];
    }
  }

  /** Names of the slots that belong to a container are told apart. */
  predicate DistinctNames(env: Env) {
    && (forall i, j :: 0 <= i < j < |env.initNames| ==> env.initNames[i] != env.initNames[j])
    && (forall i, j :: 0 <= i < j < |env.ctrNames| ==> env.ctrNames[i] != env.ctrNames[j])
    && (forall i, j :: 0 <= i < |env.initNames| && 0 <= j < |env.ctrNames| ==> env.initNames[i] != env.ctrNames[j])
  }

  /** Containers of different pods, or different containers of one pod, get different
      directories. */
  lemma DirsDistinct(a: Env, i: nat, b: Env, j: nat)
    requires '_' !in a.podUID && '_' !in b.podUID
    requires a.podUID != b.podUID
      || (a.initNames == b.initNames && a.ctrNames == b.ctrNames && DistinctNames(a)
          && i < j < |a.initNames| + |a.ctrNames|)
    ensures DirName(a.podUID, CtrName(a, i)) != DirName(b.podUID, CtrName(b, j))
  {
    NameRoundTripIff(a.podUID, CtrName(a, i));
    NameRoundTripIff(b.podUID, CtrName(b, j));
  }

  predicate SamePod(env: Env, calls: seq<Call>) {
    forall k :: 0 <= k < |calls| ==>
      var e := calls[k].env;
      e.podUID == env.podUID && e.initNames == env.initNames && e.ctrNames == env.ctrNames && e.hookPath == env.hookPath
  }

  function ShmemDir(env: Env, i: nat): string {
    env.hookPath + "/containers/" + DirName(env.podUID, CtrName(env, i))
  }

  predicate DirsNamed(env: Env, grants: seq<Grant>) {
    forall k :: 0 <= k < |grants| ==>
      grants[k].response.shmemDir == None || grants[k].response.shmemDir == Some(ShmemDir(env, grants[k].index))
  }

  lemma {:induction false} ServeNamesDirs(env: Env, lookup: map<string, RuntimeInfo>, p: Progress, sizes: seq<nat>)
    requires DirsNamed(env, p.grants) && Serve(env, lookup, p, sizes).Ok?
    ensures DirsNamed(env, Serve(env, lookup, p, sizes).value.grants)
  {
    if sizes != [] {
      ServeNamesDirs(env, lookup, p, sizes[..|sizes| - 1]);
    }
  }

  lemma {:induction false} RunNamesDirs(env: Env, slots: seq<Slot>, calls: seq<Call>)
    requires SamePod(env, calls)
    ensures DirsNamed(env, RunCalls(slots, calls).grants)
  {
    if calls != [] {
      var front, call := calls[..|calls| - 1], calls[|calls| - 1];
      assert forall k :: 0 <= k < |front| ==> front[k] == calls[k];
      RunNamesDirs(env, slots, front);
      var before := RunCalls(slots, front);
      if Outcome(call, before.slots).Ok? {
        ServeNamesDirs(call.env, Lookup(call.env.infos.value), Progress([], before.slots), call.sizes);
        var q := Outcome(call, before.slots).value;
        assert forall k :: 0 <= k < |q.grants| ==>
            ShmemDir(call.env, q.grants[k].index) == ShmemDir(env, q.grants[k].index);
      }
    }
  }

  /** The slot lies past the named containers of the pod, so it is answered for no name. */
  predicate Unnamed(env: Env, i: nat) { i >= |env.initNames| + |env.ctrNames| }

  lemma SameName(env: Env, i: nat, j: nat)
    requires DistinctNames(env) && "" !in env.initNames && "" !in env.ctrNames && i < j
    ensures CtrName(env, i) == CtrName(env, j) <==> Unnamed(env, i) && Unnamed(env, j)
  {
  }

  /** Over any run of calls for one pod two grants share a directory exactly when both slots
      lie past the named containers; so no two containers of the pod do. */
  lemma RunDirsDistinctIff(env: Env, slots: seq<Slot>, calls: seq<Call>, j: nat, k: nat)
    requires SamePod(env, calls) && DistinctNames(env) && "" !in env.initNames && "" !in env.ctrNames
    requires j < k < |RunCalls(slots, calls).grants|
    requires RunCalls(slots, calls).grants[j].response.shmemDir.Some?
    requires RunCalls(slots, calls).grants[k].response.shmemDir.Some?
    ensures var a, b := RunCalls(slots, calls).grants[j], RunCalls(slots, calls).grants[k];
      a.response.shmemDir == b.response.shmemDir <==> Unnamed(env, a.index) && Unnamed(env, b.index)
  {
    NothingLostOrRepeated(slots, calls);
    RunNamesDirs(env, slots, calls);
    var a, b := RunCalls(slots, calls).grants[j], RunCalls(slots, calls).grants[k];
    SameName(env, a.index, b.index);
    DirTells(env, a.index, b.index);
  }

  lemma DirTells(env: Env, i: nat, j: nat)
    ensures ShmemDir(env, i) == ShmemDir(env, j) <==> CtrName(env, i) == CtrName(env, j)
  {
    var prefix := env.hookPath + "/containers/" + env.podUID + "_";
    assert ShmemDir(env, i) == prefix + CtrName(env, i) && ShmemDir(env, j) == prefix + CtrName(env, j);
    assert ShmemDir(env, i)[|prefix|..] == CtrName(env, i) && ShmemDir(env, j)[|prefix|..] == CtrName(env, j);
  }

  // ----- the UUIDs of a container

  /** The scrape drops entries without a UUID. */
  function NonEmpty(uuids: seq<string>): seq<string> {
    if uuids == [] then []
    else NonEmpty(uuids[..|uuids| - 1]) + if uuids[|uuids| - 1] != "" then [uuids[|uuids| - 1]] else []
  }

  /** Index `i` of the kept UUIDs is index `i` of the annotation, as the metrics assume. */
  predicate Aligned(uuids: seq<string>) {
    |NonEmpty(uuids)| <= |uuids| && forall i :: 0 <= i < |NonEmpty(uuids)| ==> NonEmpty(uuids)[i] == uuids[i]
  }

  predicate GapBefore(uuids: seq<string>) {
    exists i, j :: 0 <= i < j < |uuids| && uuids[i] == "" && uuids[j] != ""
  }

  lemma {:induction false} NonEmptyPicks(uuids: seq<string>)
    ensures Seqs.Picks(uuids, (u: string) => u != "", (u: string) => u, NonEmpty(uuids))
  {
    var keep, view := (u: string) => u != "", (u: string) => u;
    if uuids == [] {
      Seqs.PicksNone(keep, view);
    } else {
      NonEmptyPicks(uuids[..|uuids| - 1]);
      Seqs.PicksSnoc(uuids, keep, view, NonEmpty(uuids[..|uuids| - 1]));
    }
  }

  lemma {:induction false} NonEmptyPrefix(uuids: seq<string>)
    requires !GapBefore(uuids)
    ensures NonEmpty(uuids) <= uuids
    ensures forall i :: |NonEmpty(uuids)| <= i < |uuids| ==> uuids[i] == ""
  {
    if uuids != [] {
      var n := |uuids| - 1;
      var front := uuids[..n];
      assert forall i :: 0 <= i < n ==> front[i] == uuids[i];
      NonEmptyPrefix(front);
      assert uuids[n] != "" ==> |NonEmpty(front)| == n;
    }
  }

  lemma {:induction false} NonEmptyKeeps(uuids: seq<string>)
    ensures |NonEmpty(uuids)| <= |uuids|
    ensures forall i :: 0 <= i < |NonEmpty(uuids)| ==> NonEmpty(uuids)[i] != ""
    ensures (forall i :: 0 <= i < |uuids| ==> uuids[i] != "") ==> NonEmpty(uuids) == uuids
    ensures |NonEmpty(uuids)| == |uuids| ==> forall i :: 0 <= i < |uuids| ==> uuids[i] != ""
  {
    if uuids != [] {
      NonEmptyKeeps(uuids[..|uuids| - 1]);
    }
  }

  /** A prefix without an empty UUID that holds every kept UUID is followed by empty ones only. */
  lemma {:induction false} FullPrefix(uuids: seq<string>, m: nat)
    requires m <= |uuids| && forall i :: 0 <= i < m ==> uuids[i] != ""
    ensures |NonEmpty(uuids)| >= m
    ensures |NonEmpty(uuids)| == m ==> forall j :: m <= j < |uuids| ==> uuids[j] == ""
  {
    if |uuids| == m {
      NonEmptyKeeps(uuids);
    } else {
      FullPrefix(uuids[..|uuids| - 1], m);
    }
  }

  lemma AlignedHasNoGap(uuids: seq<string>)
    requires Aligned(uuids)
    ensures !GapBefore(uuids)
  {
    NonEmptyKeeps(uuids);
    FullPrefix(uuids, |NonEmpty(uuids)|);
  }

  /** Readings are attributed to the right card exactly when no empty UUID stands before a
      non-empty one; otherwise the kept UUIDs shift onto the readings of other cards. */
  lemma AlignedIff(uuids: seq<string>)
    ensures Aligned(uuids) <==> !GapBefore(uuids)
  {
    if Aligned(uuids) {
      AlignedHasNoGap(uuids);
    }
    if !GapBefore(uuids) {
      NonEmptyPrefix(uuids);
    }
  }

  // ----- the scrape

  datatype Phase = Pending | Running | Succeeded | Failed | Unknown

  /** `annotated` holds, per container, the UUIDs parsed from the pod's annotation. */
  datatype Pod = Pod(uid: string, namespace: string, name: string, phase: Phase, annotated: map<string, seq<string>>)

  function PodByUID(pods: seq<Pod>): map<string, Pod> {
    if pods == [] then map[]
    else PodByUID(pods[..|pods| - 1])[pods[|pods| - 1].uid := pods[|pods| - 1]]
  }

  /** Pod `i` is the last one listed with that UID. */
  predicate LastListed(pods: seq<Pod>, uid: string, i: int) {
    0 <= i < |pods| && pods[i].uid == uid && forall j :: i < j < |pods| ==> pods[j].uid != uid
  }

  lemma LastListedFront(pods: seq<Pod>, uid: string, i: int)
    requires LastListed(pods, uid, i)
    ensures var n := |pods| - 1;
      if pods[n].uid == uid then i == n else i < n && pods[..n][i] == pods[i] && LastListed(pods[..n], uid, i)
  {
  }

  lemma {:induction false} LastExists(pods: seq<Pod>, uid: string, k: nat) returns (i: nat)
    requires k < |pods| && pods[k].uid == uid
    ensures LastListed(pods, uid, i)
  {
    var n := |pods| - 1;
    if pods[n].uid == uid {
      i := n;
    } else {
      i := LastExists(pods[..n], uid, k);
    }
  }

  /** A pod is found by its UID exactly when one is listed with it, and then the last such. */
  lemma {:induction false} PodByUIDExact(pods: seq<Pod>, uid: string)
    ensures uid in PodByUID(pods) <==> exists i :: 0 <= i < |pods| && pods[i].uid == uid
    ensures forall i :: LastListed(pods, uid, i) ==> PodByUID(pods)[uid] == pods[i]
  {
    if pods != [] {
      var n := |pods| - 1;
      PodByUIDExact(pods[..n], uid);
      assert forall i :: 0 <= i < n ==> pods[..n][i] == pods[i];
      forall i | LastListed(pods, uid, i) ensures PodByUID(pods)[uid] == pods[i] {
        LastListedFront(pods, uid, i);
      }
    }
  }

  /** A pod of that UID is listed and the last one listed has not finished. */
  ghost predicate Alive(pods: seq<Pod>, uid: string) {
    exists i :: LastListed(pods, uid, i) && pods[i].phase != Succeeded && pods[i].phase != Failed
  }

  /** The directory of a container is removed exactly when its pod is not alive; what is not a
      directory or has no '_' in its name never is. */
  lemma RemovedIff(pods: seq<Pod>, uid: string, ctrName: string)
    requires '_' !in uid
    ensures IsStale(PodByUID(pods), DirName(uid, ctrName), true) <==> !Alive(pods, uid)
  {
    NameRoundTripIff(uid, ctrName);
    PodByUIDExact(pods, uid);
    if uid in PodByUID(pods) {
      var k: nat :| k < |pods| && pods[k].uid == uid;
      var i := LastExists(pods, uid, k);
    }
  }

  lemma KeptIfForeign(pods: seq<Pod>, name: string, isDir: bool)
    requires !isDir || '_' !in name
    ensures !IsStale(PodByUID(pods), name, isDir)
  {
    if '_' !in name {
      assert forall k :: 0 <= k < |name| ==> name[k] != '_';
    }
  }

  /** A directory entry; `shmem` is its shared-memory file, if it can be read. */
  datatype DirEntry = DirEntry(isDir: bool, shmem: Option<seq<ShmemLayout.Byte>>)

  predicate Finished(pod: Pod) { pod.phase == Succeeded || pod.phase == Failed }

  predicate IsStale(byUID: map<string, Pod>, name: string, isDir: bool) {
    var parts := SplitName(name);
    isDir && parts.Some? && (parts.value.0 !in byUID || Finished(byUID[parts.value.0]))
  }

  /** The directory Allocate made for a container is stale exactly when its pod has left the
      node's pod list or has finished. */
  lemma StaleIff(byUID: map<string, Pod>, podUID: string, ctrName: string)
    requires '_' !in podUID
    ensures IsStale(byUID, DirName(podUID, ctrName), true) <==> podUID !in byUID || Finished(byUID[podUID])
  {
    NameRoundTripIff(podUID, ctrName);
  }

  predicate Readable(shmem: Option<seq<ShmemLayout.Byte>>) {
    shmem.Some? && |shmem.value| >= ShmemLayout.PROCS_OFFSET + ShmemLayout.PROC_SLOT_SIZE
  }

  function UUIDsOf(pod: Pod, ctrName: string): seq<string> {
    if ctrName in pod.annotated then NonEmpty(pod.annotated[ctrName]) else []
  }

  /** What the scrape reports for one name: nothing unless it is a live, readable container. */
  function ReportFor(byUID: map<string, Pod>, name: string, entry: DirEntry): seq<ContainerEntry> {
    var parts := SplitName(name);
    if !entry.isDir || parts == None || IsStale(byUID, name, true) || !Readable(entry.shmem) then []
    else
      var (podUID, ctrName) := parts.value;
      var pod, data := byUID[podUID], entry.shmem.value;
      [ContainerEntry(pod.namespace, pod.name, ctrName, ShmemLayout.LoadUint64(data, ShmemLayout.MEM_LIMIT_OFFSET),
                      ShmemLayout.DeviceMemory(data), UUIDsOf(pod, ctrName))]
  }

  function Reports(byUID: map<string, Pod>, dirs: map<string, DirEntry>, listing: seq<string>): seq<ContainerEntry>
    requires forall n :: n in listing ==> n in dirs
  {
    if listing == [] then []
    else
      var last := listing[|listing| - 1];
      Reports(byUID, dirs, listing[..|listing| - 1]) + ReportFor(byUID, last, dirs[last])
  }

  /** Of `before` the directories of containers whose pod is not alive are gone, nothing else. */
  ghost predicate RemovedWithPods(pods: seq<Pod>, before: map<string, DirEntry>, after: map<string, DirEntry>) {
    && (forall n :: n in after ==> n in before && after[n] == before[n])
    && (forall uid, ctrName ::
          '_' !in uid && DirName(uid, ctrName) in before && before[DirName(uid, ctrName)].isDir ==>
            (DirName(uid, ctrName) in after <==> Alive(pods, uid)))
    && (forall n :: n in before && (!before[n].isDir || '_' !in n) ==> n in after)
  }

  lemma RemovalFollowsPods(pods: seq<Pod>, before: map<string, DirEntry>, after: map<string, DirEntry>)
    requires forall n :: n in after <==> n in before && !IsStale(PodByUID(pods), n, before[n].isDir)
    requires forall n :: n in after ==> after[n] == before[n]
    ensures RemovedWithPods(pods, before, after)
  {
    forall uid, ctrName | '_' !in uid && DirName(uid, ctrName) in before && before[DirName(uid, ctrName)].isDir
      ensures DirName(uid, ctrName) in after <==> Alive(pods, uid)
    {
      RemovedIff(pods, uid, ctrName);
    }
    forall n | n in before && (!before[n].isDir || '_' !in n) ensures n in after {
      KeptIfForeign(pods, n, before[n].isDir);
    }
  }

  class ContainerLister {
    /** The contents of the containers directory. */
    var dirs: map<string, DirEntry>

    constructor (dirs: map<string, DirEntry>)
      ensures this.dirs == dirs
    {
      this.dirs := dirs;
    }

    method BuildPodByUID(pods: seq<Pod>) returns (byUID: map<string, Pod>)
      ensures byUID == PodByUID(pods)
    {
      byUID := map[];
      for k := 0 to |pods|
        invariant byUID == PodByUID(pods[..k])
      {
        assert pods[..k + 1][..k] == pods[..k];
        byUID := byUID[pods[k].uid := pods[k]];
      }
      assert pods[..|pods|] == pods;
    }

    /** Reads one live container's file. */
    method ReadEntry(pod: Pod, ctrName: string, shmem: Option<seq<ShmemLayout.Byte>>) returns (r: seq<ContainerEntry>)
      ensures r == if !Readable(shmem) then []
        else [ContainerEntry(pod.namespace, pod.name, ctrName,
                             ShmemLayout.LoadUint64(shmem.value, ShmemLayout.MEM_LIMIT_OFFSET),
                             ShmemLayout.DeviceMemory(shmem.value), UUIDsOf(pod, ctrName))]
    {
      var shm := ShmemLayout.ShmemReader.OpenLocalShmem(shmem);
      if shm == None {
        return [];
      }
      var reader := shm.value;
      var devUUIDs: seq<string> := [];
      if ctrName in pod.annotated {
        var devs := pod.annotated[ctrName];
        for k := 0 to |devs|
          invariant devUUIDs == NonEmpty(devs[..k])
        {
          assert devs[..k + 1][..k] == devs[..k];
          if devs[k] != "" {
            devUUIDs := devUUIDs + [devs[k]];
          }
        }
        assert devs[..|devs|] == devs;
      }
      var stats := reader.ReadPodStats();
      var devMem := reader.ReadMemoryByDevice();
      return [ContainerEntry(pod.namespace, pod.name, ctrName, stats.memoryLimit, devMem[..], devUUIDs)];
    }

    /** One round of the loop over the directory. */
    method VisitEntry(byUID: map<string, Pod>, name: string) returns (found: seq<ContainerEntry>)
      requires name in dirs
      modifies this
      ensures found == ReportFor(byUID, name, old(dirs)[name])
      ensures dirs == if IsStale(byUID, name, old(dirs)[name].isDir) then old(dirs) - {name} else old(dirs)
    {
      var entry := dirs[name];
      if !entry.isDir {
        return [];
      }
      var parts := SplitName(name);
      if parts == None {
        return [];
      }
      var (podUID, ctrName) := parts.value;
      if podUID !in byUID {
        dirs := dirs - {name};
        return [];
      }
      var pod := byUID[podUID];
      if pod.phase == Succeeded || pod.phase == Failed {
        dirs := dirs - {name};
        return [];
      }
      found := ReadEntry(pod, ctrName, entry.shmem);
    }

    /** Removes exactly the stale directories and reports the live, readable ones in the
        order of `listing`, the directory listing. */
    method ListContainers(pods: seq<Pod>, listing: seq<string>) returns (result: seq<ContainerEntry>)
      requires NoDuplicates(listing) && forall n :: n in listing <==> n in dirs
      modifies this
      ensures forall n :: n in dirs <==> n in old(dirs) && !IsStale(PodByUID(pods), n, old(dirs)[n].isDir)
      ensures forall n :: n in dirs ==> dirs[n] == old(dirs)[n]
      ensures RemovedWithPods(pods, old(dirs), dirs)
      ensures result == Reports(PodByUID(pods), old(dirs), listing)
    {
      ghost var all := dirs;
      var byUID := BuildPodByUID(pods);
      result := [];
      for k := 0 to |listing|
        invariant forall n :: n in dirs <==> n in all && !(n in listing[..k] && IsStale(byUID, n, all[n].isDir))
        invariant forall n :: n in dirs ==> dirs[n] == all[n]
        invariant result == Reports(byUID, all, listing[..k])
      {
        var name := listing[k];
        assert name in listing && name !in listing[..k];
        assert listing[..k + 1] == listing[..k] + [name];
        var found := VisitEntry(byUID, name);
        result := result + found;
        assert listing[..k + 1][..k] == listing[..k];
      }
      assert listing[..|listing|] == listing;
      RemovalFollowsPods(pods, all, dirs);
    }
  }
}
