/** Which vNPU config entry a chip gets: tiered matching with memory bands. */
module ConfigSelection {

  datatype Template = Template(name: string, memory: int, aiCore: int, aiCPU: int)

  datatype VNPUConfig = VNPUConfig(
    commonWord: string,
    chipName: string,
    devType: string,
    memoryAllocatable: int,
    memoryMatchMin: int,
    memoryMatchMax: int,
    aiCore: int,
    templates: seq<Template>)

  predicate HasMemoryBand(c: VNPUConfig) { c.memoryMatchMin > 0 || c.memoryMatchMax > 0 }

  /** Zero bounds are unbounded; a banded entry never matches a failed (zero) reading. */
  predicate MatchesMemory(c: VNPUConfig, memory: nat) {
    if !HasMemoryBand(c) then true
    else if memory == 0 then false
    else if c.memoryMatchMin > 0 && memory < c.memoryMatchMin then false
    else if c.memoryMatchMax > 0 && memory >= c.memoryMatchMax then false
    else true
  }

  /** What is known about the chip: its name, its classified type, its memory reading. */
  datatype Chip = Chip(name: string, devType: string, memory: nat)

  // ----- the declarative rule

  const NO_MATCH := 9

  predicate TypeMatches(c: VNPUConfig, chip: Chip) { c.devType != "" && c.devType == chip.devType }

  /** 0: exact chip name. 1: device type with no chip name. 2: device type alone. 3: none. */
  function Tier(c: VNPUConfig, chip: Chip): nat {
    if c.chipName == chip.name then 0
    else if !TypeMatches(c, chip) then 3
    else if c.chipName == "" then 1
    else 2
  }

  /** Within a tier: 0 for a band holding the reading, 1 for no band, 2 for any other band. */
  function BandClass(c: VNPUConfig, chip: Chip): nat {
    if !HasMemoryBand(c) then 1 else if MatchesMemory(c, chip.memory) then 0 else 2
  }

  /** Smaller is better. */
  function Rank(c: VNPUConfig, chip: Chip): (r: nat)
    ensures r <= NO_MATCH
  {
    if Tier(c, chip) == 3 then NO_MATCH else 3 * Tier(c, chip) + BandClass(c, chip)
  }

  /** `r` is the first entry of least rank, or -1 when every entry is unranked. */
  ghost predicate IsSelection(configs: seq<VNPUConfig>, chip: Chip, r: int) {
    if r == -1 then forall i :: 0 <= i < |configs| ==> Rank(configs[i], chip) == NO_MATCH
    else
      && 0 <= r < |configs|
      && Rank(configs[r], chip) < NO_MATCH
      && (forall i :: 0 <= i < |configs| ==> Rank(configs[r], chip) <= Rank(configs[i], chip))
      && (forall i :: 0 <= i < r ==> Rank(configs[r], chip) < Rank(configs[i], chip))
  }

  // ----- the code

  /** The positions below `n` of the entries of tier `tier`, ascending. */
  function Hits(configs: seq<VNPUConfig>, chip: Chip, n: nat, tier: nat): (idxs: seq<nat>)
    requires n <= |configs|
    ensures forall k :: 0 <= k < |idxs| ==> idxs[k] < n && Tier(configs[idxs[k]], chip) == tier
  {
    if n == 0 then []
    else
      var before := Hits(configs, chip, n - 1, tier);
      if Tier(configs[n - 1], chip) == tier then before + [n - 1] else before
  }

  lemma {:induction false} HitsAscend(configs: seq<VNPUConfig>, chip: Chip, n: nat, tier: nat)
    requires n <= |configs|
    ensures forall j, k :: 0 <= j < k < |Hits(configs, chip, n, tier)| ==>
      Hits(configs, chip, n, tier)[j] < Hits(configs, chip, n, tier)[k]
  {
    if n > 0 {
      HitsAscend(configs, chip, n - 1, tier);
    }
  }

  /** Every entry of the tier is a candidate. */
  lemma {:induction false} HitsAt(configs: seq<VNPUConfig>, chip: Chip, n: nat, tier: nat, i: nat) returns (k: nat)
    requires i < n <= |configs| && Tier(configs[i], chip) == tier
    ensures k < |Hits(configs, chip, n, tier)| && Hits(configs, chip, n, tier)[k] == i
  {
    if i == n - 1 {
      k := |Hits(configs, chip, n - 1, tier)|;
    } else {
      k := HitsAt(configs, chip, n - 1, tier, i);
    }
  }

  /** `idxs[k]` is the first of the candidates of least band class. */
  ghost predicate PickedAt(configs: seq<VNPUConfig>, idxs: seq<nat>, chip: Chip, k: nat)
    requires forall j :: 0 <= j < |idxs| ==> idxs[j] < |configs|
  {
    && k < |idxs|
    && (forall j :: 0 <= j < |idxs| ==> BandClass(configs[idxs[k]], chip) <= BandClass(configs[idxs[j]], chip))
    && (forall j :: 0 <= j < k ==> BandClass(configs[idxs[k]], chip) < BandClass(configs[idxs[j]], chip))
  }

  /** First of the candidates whose band holds the reading, else the first without a band,
      else the first. */
  method PickFromCandidates(configs: seq<VNPUConfig>, idxs: seq<nat>, chip: Chip) returns (r: int)
    requires forall k :: 0 <= k < |idxs| ==> idxs[k] < |configs|
    ensures if idxs == [] then r == -1 else exists k: nat :: PickedAt(configs, idxs, chip, k) && r == idxs[k]
  {
    if |idxs| == 0 {
      return -1;
    }
    if |idxs| == 1 {
      assert PickedAt(configs, idxs, chip, 0);
      return idxs[0];
    }
    var unconstrained: seq<nat> := [];
    ghost var u := 0;
    for n := 0 to |idxs|
      invariant forall j :: 0 <= j < n ==> BandClass(configs[idxs[j]], chip) != 0
      invariant unconstrained == [] ==> forall j :: 0 <= j < n ==> BandClass(configs[idxs[j]], chip) == 2
      invariant unconstrained != [] ==>
        (0 <= u < n && idxs[u] == unconstrained[0] && BandClass(configs[idxs[u]], chip) == 1
         && forall j :: 0 <= j < u ==> BandClass(configs[idxs[j]], chip) == 2)
    {
      var i := idxs[n];
      if HasMemoryBand(configs[i]) {
        if MatchesMemory(configs[i], chip.memory) {
          assert PickedAt(configs, idxs, chip, n);
          return i;
        }
        continue;
      }
      if unconstrained == [] {
        u := n;
      }
      unconstrained := unconstrained + [i];
    }
    if |unconstrained| > 0 {
      assert PickedAt(configs, idxs, chip, u);
      return unconstrained[0];
    }
    assert PickedAt(configs, idxs, chip, 0);
    return idxs[0];
  }

  /** The pick of a tier is the selection when no better tier has an entry. */
  lemma PickIsSelection(configs: seq<VNPUConfig>, chip: Chip, tier: nat, k: nat)
    requires tier <= 2 && PickedAt(configs, Hits(configs, chip, |configs|, tier), chip, k)
    requires forall i :: 0 <= i < |configs| ==> Tier(configs[i], chip) >= tier
    ensures IsSelection(configs, chip, Hits(configs, chip, |configs|, tier)[k])
  {
    var idxs := Hits(configs, chip, |configs|, tier);
    var r := idxs[k];
    HitsAscend(configs, chip, |configs|, tier);
    forall i | 0 <= i < |configs|
      ensures Rank(configs[r], chip) <= Rank(configs[i], chip)
      ensures i < r ==> Rank(configs[r], chip) < Rank(configs[i], chip)
    {
      if Tier(configs[i], chip) == tier {
        var j := HitsAt(configs, chip, |configs|, tier, i);
        assert BandClass(configs[r], chip) <= BandClass(configs[idxs[j]], chip);
        assert i < r ==> j < k;
      }
    }
  }

  lemma TierDecides(configs: seq<VNPUConfig>, chip: Chip, tier: nat, r: int)
    requires tier <= 2
    requires forall i :: 0 <= i < |configs| ==> Tier(configs[i], chip) >= tier
    requires var idxs := Hits(configs, chip, |configs|, tier);
      exists k: nat :: PickedAt(configs, idxs, chip, k) && r == idxs[k]
    ensures IsSelection(configs, chip, r)
  {
    var idxs := Hits(configs, chip, |configs|, tier);
    var k: nat :| PickedAt(configs, idxs, chip, k) && r == idxs[k];
    PickIsSelection(configs, chip, tier, k);
  }

  /** An empty candidate list rules the tier out. */
  lemma NoHits(configs: seq<VNPUConfig>, chip: Chip, tier: nat)
    requires Hits(configs, chip, |configs|, tier) == []
    ensures forall i :: 0 <= i < |configs| ==> Tier(configs[i], chip) != tier
  {
    forall i: nat | i < |configs| && Tier(configs[i], chip) == tier ensures false {
      var k := HitsAt(configs, chip, |configs|, tier, i);
    }
  }

  method IndexVNPUConfig(configs: seq<VNPUConfig>, chip: Chip) returns (r: int)
    ensures IsSelection(configs, chip, r)
  {
    var exact: seq<nat> := [];
    for i := 0 to |configs|
      invariant exact == Hits(configs, chip, i, 0)
    {
      if configs[i].chipName == chip.name {
        exact := exact + [i];
      }
    }
    r := PickFromCandidates(configs, exact, chip);
    if r != -1 {
      TierDecides(configs, chip, 0, r);
      return;
    }
    NoHits(configs, chip, 0);
    var typed: seq<nat> := [];
    for i := 0 to |configs|
      invariant typed == Hits(configs, chip, i, 1)
    {
      if configs[i].devType != "" && configs[i].devType == chip.devType {
        if configs[i].chipName == "" || configs[i].chipName == chip.name {
          typed := typed + [i];
        }
      }
    }
    r := PickFromCandidates(configs, typed, chip);
    if r != -1 {
      TierDecides(configs, chip, 1, r);
      return;
    }
    NoHits(configs, chip, 1);
    var byType: seq<nat> := [];
    for i := 0 to |configs|
      invariant byType == Hits(configs, chip, i, 2)
    {
      if configs[i].devType != "" && configs[i].devType == chip.devType {
        byType := byType + [i];
      }
    }
    r := PickFromCandidates(configs, byType, chip);
    if r != -1 {
      TierDecides(configs, chip, 2, r);
    } else {
      NoHits(configs, chip, 2);
    }
  }

  // ----- what the rule says

  predicate Matches(c: VNPUConfig, chip: Chip) { c.chipName == chip.name || TypeMatches(c, chip) }

  predicate Banded(c: VNPUConfig, chip: Chip) { HasMemoryBand(c) && MatchesMemory(c, chip.memory) }

  /** Entries with the chip's name come first, then those of its device type without a chip
      name, then those of its device type. */
  ghost predicate Candidate(configs: seq<VNPUConfig>, chip: Chip, c: VNPUConfig) {
    if exists i :: 0 <= i < |configs| && configs[i].chipName == chip.name then
      c.chipName == chip.name
    else if exists i :: 0 <= i < |configs| && configs[i].devType == chip.devType != "" && configs[i].chipName == "" then
      c.devType == chip.devType != "" && c.chipName == ""
    else
      c.devType == chip.devType != ""
  }

  /** `r` is the first candidate with the property. */
  ghost predicate FirstOne(configs: seq<VNPUConfig>, chip: Chip, p: VNPUConfig -> bool, r: int) {
    && 0 <= r < |configs| && Candidate(configs, chip, configs[r]) && p(configs[r])
    && forall i :: 0 <= i < r && Candidate(configs, chip, configs[i]) ==> !p(configs[i])
  }

  ghost predicate SomeOne(configs: seq<VNPUConfig>, chip: Chip, p: VNPUConfig -> bool) {
    exists i :: 0 <= i < |configs| && Candidate(configs, chip, configs[i]) && p(configs[i])
  }

  lemma CandidateIsTier(configs: seq<VNPUConfig>, chip: Chip, r: int, i: nat)
    requires IsSelection(configs, chip, r) && r != -1 && i < |configs|
    ensures Candidate(configs, chip, configs[i]) <==> Tier(configs[i], chip) == Tier(configs[r], chip)
  {
    assert forall k :: 0 <= k < |configs| ==> Rank(configs[r], chip) <= Rank(configs[k], chip);
  }

  /** The selection in the words of the configuration file: nothing is selected exactly when
      no entry names the chip or its type; otherwise the best group that has an entry decides,
      by the first band holding the reading, else the first entry without a band, else the
      first entry. A group's only entry wins whatever its band says. */
  lemma SelectionRule(configs: seq<VNPUConfig>, chip: Chip, r: int)
    requires IsSelection(configs, chip, r)
    ensures r == -1 <==> forall i :: 0 <= i < |configs| ==>
      configs[i].chipName != chip.name && (configs[i].devType == "" || configs[i].devType != chip.devType)
    ensures r != -1 ==>
      if SomeOne(configs, chip, c => Banded(c, chip)) then FirstOne(configs, chip, c => Banded(c, chip), r)
      else if SomeOne(configs, chip, c => !HasMemoryBand(c)) then FirstOne(configs, chip, c => !HasMemoryBand(c), r)
      else FirstOne(configs, chip, _ => true, r)
  {
    if r != -1 {
      forall i: nat | i < |configs|
        ensures Candidate(configs, chip, configs[i]) <==> Tier(configs[i], chip) == Tier(configs[r], chip)
        ensures Rank(configs[r], chip) <= Rank(configs[i], chip)
      {
        CandidateIsTier(configs, chip, r, i);
      }
      assert Candidate(configs, chip, configs[r]);
    }
  }

  /** The rule leaves no choice. */
  lemma SelectionUnique(configs: seq<VNPUConfig>, chip: Chip, r: int, q: int)
    requires IsSelection(configs, chip, r) && IsSelection(configs, chip, q)
    ensures r == q
  {
    if r != -1 && q != -1 {
      assert Rank(configs[r], chip) == Rank(configs[q], chip);
    }
  }

  // ----- when the order of the entries matters

  ghost predicate Least(configs: seq<VNPUConfig>, chip: Chip, c: VNPUConfig) {
    && c in configs
    && Rank(c, chip) < NO_MATCH
    && forall d :: d in configs ==> Rank(c, chip) <= Rank(d, chip)
  }

  /** All best-ranked entries are the same entry. */
  ghost predicate Decided(configs: seq<VNPUConfig>, chip: Chip) {
    forall c, d :: Least(configs, chip, c) && Least(configs, chip, d) ==> c == d
  }

  ghost predicate SameChoice(a: seq<VNPUConfig>, b: seq<VNPUConfig>, chip: Chip) {
    forall r, q :: IsSelection(a, chip, r) && IsSelection(b, chip, q) ==>
      if r == -1 || q == -1 then r == q else a[r] == b[q]
  }

  ghost predicate OrderIrrelevant(configs: seq<VNPUConfig>, chip: Chip) {
    forall b: seq<VNPUConfig> :: multiset(b) == multiset(configs) ==> SameChoice(configs, b, chip)
  }

  lemma SelectedIsLeast(configs: seq<VNPUConfig>, chip: Chip, r: int)
    requires IsSelection(configs, chip, r) && r != -1
    ensures Least(configs, chip, configs[r])
  {
    forall d | d in configs ensures Rank(configs[r], chip) <= Rank(d, chip) {
      var i :| 0 <= i < |configs| && configs[i] == d;
    }
  }

  lemma PermutedLeast(a: seq<VNPUConfig>, b: seq<VNPUConfig>, chip: Chip, c: VNPUConfig)
    requires multiset(a) == multiset(b)
    ensures Least(a, chip, c) == Least(b, chip, c)
  {
    assert forall d :: d in a <==> d in multiset(a);
    assert forall d :: d in b <==> d in multiset(b);
  }

  lemma DecidedKeepsChoice(a: seq<VNPUConfig>, b: seq<VNPUConfig>, chip: Chip, r: int, q: int)
    requires Decided(a, chip) && multiset(a) == multiset(b)
    requires IsSelection(a, chip, r) && IsSelection(b, chip, q)
    ensures if r == -1 || q == -1 then r == q else a[r] == b[q]
  {
    if r != -1 {
      SelectedIsLeast(a, chip, r);
      PermutedLeast(a, b, chip, a[r]);
    }
    if q != -1 {
      SelectedIsLeast(b, chip, q);
      PermutedLeast(a, b, chip, b[q]);
    }
  }

  /** Moving another best-ranked entry to the front makes it the selection. */
  lemma FrontWins(configs: seq<VNPUConfig>, chip: Chip, i: nat) returns (b: seq<VNPUConfig>)
    requires i < |configs| && Least(configs, chip, configs[i])
    ensures multiset(b) == multiset(configs) && IsSelection(b, chip, 0) && b[0] == configs[i]
  {
    b := [configs[i]] + configs[..i] + configs[i + 1..];
    assert configs == configs[..i] + [configs[i]] + configs[i + 1..];
    forall k | 0 <= k < |b| ensures Rank(b[0], chip) <= Rank(b[k], chip) {
      assert b[k] in configs;
    }
  }

  /** Reordering the config list can never change the selected entry exactly when all
      best-ranked entries are equal. */
  lemma OrderIrrelevantIff(configs: seq<VNPUConfig>, chip: Chip)
    ensures OrderIrrelevant(configs, chip) <==> Decided(configs, chip)
  {
    if Decided(configs, chip) {
      forall b: seq<VNPUConfig> | multiset(b) == multiset(configs) ensures SameChoice(configs, b, chip) {
        forall r, q | IsSelection(configs, chip, r) && IsSelection(b, chip, q)
          ensures if r == -1 || q == -1 then r == q else configs[r] == b[q]
        {
          DecidedKeepsChoice(configs, b, chip, r, q);
        }
      }
    }
    if OrderIrrelevant(configs, chip) {
      var r := IndexExists(configs, chip);
      forall c, d | Least(configs, chip, c) && Least(configs, chip, d) ensures c == d {
        var i :| 0 <= i < |configs| && configs[i] == c;
        var j :| 0 <= j < |configs| && configs[j] == d;
        var bi := FrontWins(configs, chip, i);
        var bj := FrontWins(configs, chip, j);
        assert SameChoice(configs, bi, chip) && SameChoice(configs, bj, chip);
      }
    }
  }

  /** A selection always exists. */
  lemma {:induction false} IndexExists(configs: seq<VNPUConfig>, chip: Chip) returns (r: int)
    ensures IsSelection(configs, chip, r)
  {
    if configs == [] {
      r := -1;
    } else {
      var n := |configs| - 1;
      r := IndexExists(configs[..n], chip);
      var best := if r == -1 then NO_MATCH else Rank(configs[r], chip);
      if Rank(configs[n], chip) < best {
        r := n;
      }
      assert forall i :: 0 <= i < n ==> configs[i] == configs[..n][i];
    }
  }

  /** Two cases where the order cannot matter: the best tier has one entry, or exactly one of
      its entries has a band holding the reading. */
  lemma DecidedWhen(configs: seq<VNPUConfig>, chip: Chip, i: nat)
    requires i < |configs| && Tier(configs[i], chip) <= 2
    requires forall j :: 0 <= j < |configs| ==> Tier(configs[j], chip) >= Tier(configs[i], chip)
    requires forall j :: 0 <= j < |configs| && j != i && Tier(configs[j], chip) == Tier(configs[i], chip) ==>
      Banded(configs[i], chip) && !Banded(configs[j], chip)
    ensures Decided(configs, chip) && Least(configs, chip, configs[i])
  {
    forall d | d in configs ensures Rank(configs[i], chip) <= Rank(d, chip) {
      var j :| 0 <= j < |configs| && configs[j] == d;
    }
    forall c | Least(configs, chip, c) ensures c == configs[i] {
      var j :| 0 <= j < |configs| && configs[j] == c;
      assert Rank(c, chip) == Rank(configs[i], chip);
    }
  }

  // ----- bands cut from breakpoints

  predicate Ascending(points: seq<int>) {
    (forall i :: 0 <= i < |points| ==> 0 < points[i])
    && forall i, j :: 0 <= i < j < |points| ==> points[i] < points[j]
  }

  /** Entry `i` carries the `i`-th band of [0, b1), [b1, b2), ..., [bk, unbounded), with 0
      standing for "unbounded". */
  predicate CutAt(entries: seq<VNPUConfig>, points: seq<int>) {
    && |entries| == |points| + 1
    && forall i :: 0 <= i < |entries| ==>
         && entries[i].memoryMatchMin == (if i == 0 then 0 else points[i - 1])
         && entries[i].memoryMatchMax == (if i == |points| then 0 else points[i])
  }

  function BandOf(points: seq<int>, memory: nat): (i: nat)
    requires Ascending(points)
    ensures i <= |points|
    ensures forall j :: 0 <= j < i ==> points[j] <= memory
    ensures forall j :: i <= j < |points| ==> memory < points[j]
  {
    if points == [] || memory < points[|points| - 1] then
      if points == [] then 0 else BandOf(points[..|points| - 1], memory)
    else |points|
  }

  /** With at least one breakpoint every non-zero reading lies in exactly one band, and a
      failed reading in none. Without any the only entry has no band and matches every
      reading, a failed one included. */
  lemma BandsPartition(entries: seq<VNPUConfig>, points: seq<int>, memory: nat)
    requires Ascending(points) && CutAt(entries, points)
    ensures forall i :: 0 <= i < |entries| ==> (HasMemoryBand(entries[i]) <==> points != [])
    ensures forall i :: 0 <= i < |entries| ==>
      (MatchesMemory(entries[i], memory) <==> points == [] || (memory != 0 && i == BandOf(points, memory)))
  {
    var b := BandOf(points, memory);
    forall i | 0 <= i < |entries|
      ensures HasMemoryBand(entries[i]) <==> points != []
      ensures MatchesMemory(entries[i], memory) <==> points == [] || (memory != 0 && i == b)
    {
      assert i < |points| ==> entries[i].memoryMatchMax == points[i] && (memory < points[i] <==> b <= i);
      assert i > 0 ==> entries[i].memoryMatchMin == points[i - 1] && (points[i - 1] <= memory <==> i <= b);
    }
  }

  /** Entries of one chip cut at breakpoints: any order of the file selects the entry whose
      band holds the reading. */
  lemma BandedSelection(entries: seq<VNPUConfig>, points: seq<int>, configs: seq<VNPUConfig>, chip: Chip, r: int)
    requires points != [] && Ascending(points) && CutAt(entries, points) && chip.memory != 0
    requires forall i :: 0 <= i < |entries| ==> entries[i].chipName == chip.name
    requires multiset(configs) == multiset(entries) && IsSelection(configs, chip, r)
    ensures r != -1 && configs[r] == entries[BandOf(points, chip.memory)]
  {
    BandsPartition(entries, points, chip.memory);
    var i := BandOf(points, chip.memory);
    DecidedWhen(entries, chip, i);
    PermutedLeast(entries, configs, chip, entries[i]);
    var j :| 0 <= j < |configs| && configs[j] == entries[i];
    SelectedIsLeast(configs, chip, r);
    PermutedLeast(entries, configs, chip, configs[r]);
  }
}
