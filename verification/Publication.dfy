/** The device list the plugin publishes: kubelet IDs, the change fingerprint and
    the HAMi registration, and what each tells about the cached devices. */
module Devices {

  /** One NPU as cached by the manager. */
  datatype Device = Device(
    uuid: string,
    logicID: int,
    phyID: int,
    cardID: int,
    deviceID: int,
    memory: int,
    aiCore: int,
    health: bool)

  predicate DistinctUUIDs(devs: seq<Device>) {
    forall i, j :: 0 <= i < j < |devs| ==> devs[i].uuid != devs[j].uuid
  }

  /** `GetDeviceByUUID`: the first cached device with that UUID. */
  function IndexByUUID(devs: seq<Device>, uuid: string): (k: nat)
    ensures k <= |devs|
    ensures k < |devs| ==> devs[k].uuid == uuid
    ensures forall j :: 0 <= j < k ==> devs[j].uuid != uuid
  {
    if devs == [] || devs[0].uuid == uuid then 0 else 1 + IndexByUUID(devs[1..], uuid)
  }
}

module Publication {
  import opened Wrappers
  import opened Devices
  import Decimal
  import Text

  /** One entry of a ListAndWatch response. */
  datatype ApiDevice = ApiDevice(id: string, healthy: bool)

  function Clamp(v: int): nat { if v < 0 then 0 else v }

  function PublishedID(uuid: string, i: nat): string {
    uuid + "-" + Decimal.Format(i)
  }

  function Replicas(dev: Device, n: nat): (r: seq<ApiDevice>)
    ensures |r| == n
  {
    seq(n, i requires 0 <= i < n => ApiDevice(PublishedID(dev.uuid, i), dev.health))
  }

  /** The list `apiDevices` builds; a virtual count below one gives no entry at all. */
  function ApiList(devs: seq<Device>, vCount: int): seq<ApiDevice> {
    if devs == [] then [] else Replicas(devs[0], Clamp(vCount)) + ApiList(devs[1..], vCount)
  }

  function Mark(health: bool): string { if health then "=1;" else "=0;" }

  function Fingerprint(devs: seq<Device>): string {
    if devs == [] then "" else devs[0].uuid + Mark(devs[0].health) + Fingerprint(devs[1..])
  }

  // ----- the loops compute these functions

  lemma {:induction false} ApiListSnoc(devs: seq<Device>, d: Device, vCount: int)
    ensures ApiList(devs + [d], vCount) == ApiList(devs, vCount) + Replicas(d, Clamp(vCount))
  {
    if devs == [] {
      assert ApiList([d][1..], vCount) == [];
    } else {
      assert (devs + [d])[1..] == devs[1..] + [d];
      ApiListSnoc(devs[1..], d, vCount);
    }
  }

  lemma {:induction false} FingerprintSnoc(devs: seq<Device>, d: Device)
    ensures Fingerprint(devs + [d]) == Fingerprint(devs) + d.uuid + Mark(d.health)
  {
    var more := devs + [d];
    if devs == [] {
      assert more[1..] == [];
    } else {
      assert more[1..] == devs[1..] + [d] && more[0] == devs[0];
      FingerprintSnoc(devs[1..], d);
    }
  }

  method ApiDevices(devs: seq<Device>, vCount: int) returns (devices: seq<ApiDevice>)
    ensures devices == ApiList(devs, vCount)
  {
    devices := [];
    for k := 0 to |devs|
      invariant devices == ApiList(devs[..k], vCount)
    {
      var dev := devs[k];
      ghost var before := devices;
      for i := 0 to Clamp(vCount)
        invariant devices == before + Replicas(dev, Clamp(vCount))[..i]
      {
        devices := devices + [ApiDevice(dev.uuid + "-" + Decimal.Format(i), dev.health)];
      }
      ApiListSnoc(devs[..k], dev, vCount);
      assert devs[..k + 1] == devs[..k] + [dev];
    }
    assert devs[..|devs|] == devs;
  }

  method DeviceFingerprint(devs: seq<Device>) returns (fp: string)
    ensures fp == Fingerprint(devs)
  {
    fp := "";
    for k := 0 to |devs|
      invariant fp == Fingerprint(devs[..k])
    {
      fp := fp + devs[k].uuid;
      if devs[k].health {
        fp := fp + "=1;";
      } else {
        fp := fp + "=0;";
      }
      FingerprintSnoc(devs[..k], devs[k]);
      assert devs[..k + 1] == devs[..k] + [devs[k]];
    }
    assert devs[..|devs|] == devs;
  }

  // ----- comparing fingerprints decides whether kubelet's list changed

  /** The two lists show the same UUIDs with the same health, in the same order. */
  predicate SameView(a: seq<Device>, b: seq<Device>) {
    |a| == |b| && forall k :: 0 <= k < |a| ==> a[k].uuid == b[k].uuid && a[k].health == b[k].health
  }

  lemma SameViewTail(a: seq<Device>, b: seq<Device>)
    requires a != [] && b != []
    ensures SameView(a, b) <==>
      a[0].uuid == b[0].uuid && a[0].health == b[0].health && SameView(a[1..], b[1..])
  {
    if a[0].uuid == b[0].uuid && a[0].health == b[0].health && SameView(a[1..], b[1..]) {
      forall k | 0 <= k < |a| ensures a[k].uuid == b[k].uuid && a[k].health == b[k].health {
        if k > 0 {
          assert a[1..][k - 1].uuid == b[1..][k - 1].uuid && a[1..][k - 1].health == b[1..][k - 1].health;
        }
      }
    }
  }

  lemma {:induction false} SameViewSuffices(a: seq<Device>, b: seq<Device>, vCount: int)
    requires SameView(a, b)
    ensures ApiList(a, vCount) == ApiList(b, vCount) && Fingerprint(a) == Fingerprint(b)
  {
    if a != [] {
      SameViewTail(a, b);
      SameViewSuffices(a[1..], b[1..], vCount);
    }
  }

  lemma {:induction false} ApiListNone(devs: seq<Device>, vCount: int)
    requires vCount <= 0
    ensures ApiList(devs, vCount) == []
  {
    if devs != [] {
      ApiListNone(devs[1..], vCount);
    }
  }

  /** With at least one virtual device per card the published list determines every
      UUID and every health flag, whatever characters the UUIDs hold. */
  lemma {:induction false} ApiListEqualIff(a: seq<Device>, b: seq<Device>, vCount: int)
    requires vCount >= 1
    ensures ApiList(a, vCount) == ApiList(b, vCount) <==> SameView(a, b)
  {
    if SameView(a, b) {
      SameViewSuffices(a, b, vCount);
    } else if a != [] && b != [] {
      var ra, rb := Replicas(a[0], vCount), Replicas(b[0], vCount);
      var ta, tb := ApiList(a[1..], vCount), ApiList(b[1..], vCount);
      if ra + ta == rb + tb {
        assert (ra + ta)[..vCount] == ra && (rb + tb)[..vCount] == rb;
        assert (ra + ta)[vCount..] == ta && (rb + tb)[vCount..] == tb;
        assert ra[0] == rb[0];
        assert PublishedID(a[0].uuid, 0)[..|a[0].uuid|] == a[0].uuid;
        assert Decimal.Format(0) == "0";
        assert |a[0].uuid| == |b[0].uuid|;
        assert PublishedID(b[0].uuid, 0)[..|b[0].uuid|] == b[0].uuid;
        ApiListEqualIff(a[1..], b[1..], vCount);
        SameViewTail(a, b);
      }
    }
  }

  /** `s` holds the end-of-device marker "=0;" or "=1;" at position `j`. */
  predicate MarkerAt(s: string, j: nat) {
    j + 2 < |s| && s[j] == '=' && (s[j + 1] == '0' || s[j + 1] == '1') && s[j + 2] == ';'
  }

  predicate MarkerFree(uuid: string) {
    forall j: nat :: j + 2 < |uuid| ==> !MarkerAt(uuid, j)
  }

  predicate MarkerFreeList(devs: seq<Device>) {
    forall k :: 0 <= k < |devs| ==> MarkerFree(devs[k].uuid)
  }

  /** A marker-free UUID ends exactly at the first marker of the rest of the fingerprint. */
  lemma FirstMarker(uuid: string, health: bool, rest: string)
    ensures MarkerAt(uuid + Mark(health) + rest, |uuid|)
    ensures MarkerFree(uuid) ==> forall j: nat :: j < |uuid| ==> !MarkerAt(uuid + Mark(health) + rest, j)
  {
    var s := uuid + Mark(health) + rest;
    if MarkerFree(uuid) {
      forall j: nat | j < |uuid| ensures !MarkerAt(s, j) {
        assert s[|uuid|] == '=';
        if j + 2 < |uuid| {
          assert !MarkerAt(uuid, j);
        }
      }
    }
  }

  /** Equal fingerprints begin with the same device. */
  lemma FirstDeviceEqual(c: Device, ra: string, d: Device, rb: string)
    requires MarkerFree(c.uuid) && MarkerFree(d.uuid)
    requires c.uuid + Mark(c.health) + ra == d.uuid + Mark(d.health) + rb
    ensures c.uuid == d.uuid && c.health == d.health && ra == rb
  {
    var s, n := c.uuid + Mark(c.health) + ra, |c.uuid|;
    FirstMarker(c.uuid, c.health, ra);
    FirstMarker(d.uuid, d.health, rb);
    assert n == |d.uuid|;
    assert s[..n] == c.uuid && s[n + 1] == Mark(c.health)[1] && s[n + 3..] == ra;
    assert s[..n] == d.uuid && s[n + 1] == Mark(d.health)[1] && s[n + 3..] == rb;
  }

  lemma {:induction false} FingerprintEqualIff(a: seq<Device>, b: seq<Device>)
    requires MarkerFreeList(a) && MarkerFreeList(b)
    ensures Fingerprint(a) == Fingerprint(b) <==> SameView(a, b)
  {
    if SameView(a, b) {
      SameViewSuffices(a, b, 1);
    } else if a != [] && b != [] {
      if Fingerprint(a) == Fingerprint(b) {
        FirstDeviceEqual(a[0], Fingerprint(a[1..]), b[0], Fingerprint(b[1..]));
        FingerprintEqualIff(a[1..], b[1..]);
        SameViewTail(a, b);
      }
    }
  }

  /** The comparison in the watch loop is exact: the fingerprint changes exactly when
      the list kubelet would be sent changes. */
  lemma FingerprintDecides(a: seq<Device>, b: seq<Device>, vCount: int)
    requires MarkerFreeList(a) && MarkerFreeList(b)
    ensures vCount >= 1 ==> (Fingerprint(a) == Fingerprint(b) <==> ApiList(a, vCount) == ApiList(b, vCount))
    ensures Fingerprint(a) == Fingerprint(b) ==> ApiList(a, vCount) == ApiList(b, vCount)
  {
    FingerprintEqualIff(a, b);
    if vCount >= 1 {
      ApiListEqualIff(a, b, vCount);
    } else {
      ApiListNone(a, vCount);
      ApiListNone(b, vCount);
    }
  }

  lemma FingerprintOne(d: Device)
    ensures Fingerprint([d]) == d.uuid + Mark(d.health)
  {
    assert [d][1..] == [];
    assert Fingerprint([d]) == d.uuid + Mark(d.health) + "";
  }

  lemma FingerprintCons(d: Device, rest: seq<Device>)
    ensures Fingerprint([d] + rest) == d.uuid + Mark(d.health) + Fingerprint(rest)
  {
    assert ([d] + rest)[1..] == rest;
  }

  /** A UUID with a marker reads as two devices cut at the marker. */
  lemma CutAtMarker(d: Device, j: nat) returns (first: Device, second: Device)
    requires MarkerAt(d.uuid, j)
    ensures |first.uuid| < |d.uuid| && |second.uuid| < |d.uuid|
    ensures d.uuid + Mark(d.health) == first.uuid + Mark(first.health) + (second.uuid + Mark(second.health))
  {
    first := d.(uuid := d.uuid[..j], health := d.uuid[j + 1] == '1');
    second := d.(uuid := d.uuid[j + 3..]);
    assert d.uuid == first.uuid + Mark(first.health) + second.uuid;
  }

  /** Cutting a UUID at all its markers leaves the fingerprint as it is. */
  lemma {:induction false} CutDevice(d: Device, rest: seq<Device>) returns (b: seq<Device>)
    requires MarkerFreeList(rest)
    ensures MarkerFreeList(b) && Fingerprint(b) == d.uuid + Mark(d.health) + Fingerprint(rest)
    decreases |d.uuid|
  {
    if MarkerFree(d.uuid) {
      b := [d] + rest;
      FingerprintCons(d, rest);
    } else {
      var j: nat :| j + 2 < |d.uuid| && MarkerAt(d.uuid, j);
      var first, second := CutAtMarker(d, j);
      b := CutDevice(second, rest);
      b := CutDevice(first, b);
    }
  }

  /** Every fingerprint is also that of a list without markers. */
  lemma {:induction false} CutList(a: seq<Device>) returns (b: seq<Device>)
    ensures MarkerFreeList(b) && Fingerprint(b) == Fingerprint(a)
  {
    if a == [] {
      b := [];
    } else {
      b := CutList(a[1..]);
      b := CutDevice(a[0], b);
    }
  }

  lemma SameViewKeepsMarkers(a: seq<Device>, b: seq<Device>)
    ensures SameView(a, b) && MarkerFreeList(b) ==> MarkerFreeList(a)
  {
    assert SameView(a, b) ==> forall k :: 0 <= k < |a| ==> a[k].uuid == b[k].uuid;
  }

  ghost predicate HasCleanDouble(a: seq<Device>) {
    exists b: seq<Device> :: MarkerFreeList(b) && Fingerprint(b) == Fingerprint(a) && !SameView(a, b)
  }

  /** A marker in some UUID is exactly what lets an ordinary device list, one without markers,
      have the fingerprint of another list, so that its arrival goes unnoticed. */
  lemma CleanDoubleIff(a: seq<Device>)
    ensures HasCleanDouble(a) <==> !MarkerFreeList(a)
  {
    if MarkerFreeList(a) {
      forall b: seq<Device> | MarkerFreeList(b) && Fingerprint(b) == Fingerprint(a) ensures SameView(a, b) {
        FingerprintEqualIff(a, b);
      }
    } else {
      var b := CutList(a);
      SameViewKeepsMarkers(a, b);
    }
  }

  ghost predicate HasDouble(a: seq<Device>) {
    exists b: seq<Device> :: Fingerprint(b) == Fingerprint(a) && !SameView(a, b)
  }

  lemma Regroup(a: string, b: string, c: string, d: string, e: string)
    ensures a + b + (c + d + e) == (a + b + c) + d + e
  {
  }

  /** Two devices read as one whose UUID holds the first one's marker. */
  lemma Merged(a: seq<Device>)
    requires |a| >= 2
    ensures HasDouble(a)
  {
    var one, rest := a[1].(uuid := a[0].uuid + Mark(a[0].health) + a[1].uuid), a[2..];
    var b := [one] + rest;
    FingerprintCons(one, rest);
    assert a == [a[0]] + ([a[1]] + rest);
    FingerprintCons(a[1], rest);
    FingerprintCons(a[0], [a[1]] + rest);
    Regroup(a[0].uuid, Mark(a[0].health), a[1].uuid, Mark(a[1].health), Fingerprint(rest));
    assert Fingerprint(b) == Fingerprint(a);
    assert |b| == |a| - 1;
  }

  /** A list of at most one marker-free device has a fingerprint of its own. */
  lemma FewIsUnique(a: seq<Device>, b: seq<Device>)
    requires |a| <= 1 && MarkerFreeList(a) && Fingerprint(b) == Fingerprint(a)
    ensures SameView(a, b)
  {
    if a == [] {
      assert b == [];
    } else {
      var d := a[0];
      var s, n := Fingerprint(b), |d.uuid|;
      assert a == [d];
      FingerprintOne(d);
      FirstMarker(d.uuid, d.health, "");
      assert d.uuid + Mark(d.health) + "" == s;
      assert b != [];
      FirstEntryReaches(b, n);
      assert s == b[0].uuid + Mark(b[0].health) + Fingerprint(b[1..]);
      assert |b[0].uuid| == n && b[1..] == [];
      assert s[..n] == b[0].uuid && s[n + 1] == Mark(b[0].health)[1];
      assert s[..n] == d.uuid && s[n + 1] == Mark(d.health)[1];
    }
  }

  /** The first UUID of a list does not end before the first marker of its fingerprint. */
  lemma FirstEntryReaches(b: seq<Device>, n: nat)
    requires b != []
    requires forall j: nat :: j < n ==> !MarkerAt(Fingerprint(b), j)
    ensures n <= |b[0].uuid|
  {
    FirstMarker(b[0].uuid, b[0].health, Fingerprint(b[1..]));
    assert Fingerprint(b) == b[0].uuid + Mark(b[0].health) + Fingerprint(b[1..]);
  }

  /** Among all lists, with markers or without, only those of at most one marker-free device
      have a fingerprint of their own. */
  lemma DoubleIff(a: seq<Device>)
    ensures HasDouble(a) <==> |a| >= 2 || !MarkerFreeList(a)
  {
    if |a| >= 2 {
      Merged(a);
    } else if MarkerFreeList(a) {
      forall b: seq<Device> | Fingerprint(b) == Fingerprint(a) ensures SameView(a, b) {
        FewIsUnique(a, b);
      }
    } else {
      CleanDoubleIff(a);
    }
  }

  // ----- published IDs are distinct and can be read back

  /** Splits an ID at its last '-', which the decimal index never contains. */
  function ParseID(id: string): Option<(string, nat)> {
    var i := Text.LastIndexOf(id, '-');
    if i < |id| && Decimal.AllDigits(id[i + 1..]) then
      Some((id[..i], Decimal.Value(id[i + 1..])))
    else
      None
  }

  lemma ParsePublishedID(uuid: string, i: nat)
    ensures ParseID(PublishedID(uuid, i)) == Some((uuid, i))
  {
    var id := PublishedID(uuid, i);
    assert id[|uuid| + 1..] == Decimal.Format(i) && id[..|uuid|] == uuid;
    Text.LastIndexOfIs(id, '-', |uuid|);
    Decimal.FormatValue(i);
  }

  predicate Replicates(e: ApiDevice, dev: Device, i: nat) {
    ParseID(e.id) == Some((dev.uuid, i)) && e.healthy == dev.health
  }

  /** Every entry parses back to the UUID and health of one cached device. */
  lemma {:induction false} EntryOrigin(devs: seq<Device>, vCount: int, p: nat)
    requires p < |ApiList(devs, vCount)|
    ensures exists k: nat, i: nat :: k < |devs| && i < Clamp(vCount) && Replicates(ApiList(devs, vCount)[p], devs[k], i)
  {
    var n := Clamp(vCount);
    if p < n {
      ParsePublishedID(devs[0].uuid, p);
      assert Replicates(ApiList(devs, vCount)[p], devs[0], p);
    } else {
      EntryOrigin(devs[1..], vCount, p - n);
      var k: nat, i: nat :| k < |devs[1..]| && i < n && Replicates(ApiList(devs[1..], vCount)[p - n], devs[1..][k], i);
      assert Replicates(ApiList(devs, vCount)[p], devs[k + 1], i);
    }
  }

  lemma {:induction false} PublishedIDsDistinct(devs: seq<Device>, vCount: int, p: nat, q: nat)
    requires DistinctUUIDs(devs)
    requires p < q < |ApiList(devs, vCount)|
    ensures ApiList(devs, vCount)[p].id != ApiList(devs, vCount)[q].id
  {
    var n := Clamp(vCount);
    var tail := devs[1..];
    if p < n {
      ParsePublishedID(devs[0].uuid, p);
      if q < n {
        ParsePublishedID(devs[0].uuid, q);
      } else {
        EntryOrigin(tail, vCount, q - n);
        assert forall k :: 0 <= k < |tail| ==> tail[k] == devs[k + 1];
      }
    } else {
      PublishedIDsDistinct(tail, vCount, p - n, q - n);
    }
  }

  predicate BelongsTo(e: ApiDevice, uuid: string, health: bool) {
    var parsed := ParseID(e.id);
    parsed.Some? && parsed.value.0 == uuid && e.healthy == health
  }

  /** How many published entries belong to `uuid` and carry `health`. */
  function EntriesFor(list: seq<ApiDevice>, uuid: string, health: bool): nat {
    if list == [] then 0
    else (if BelongsTo(list[0], uuid, health) then 1 else 0) + EntriesFor(list[1..], uuid, health)
  }

  lemma {:induction false} EntriesForSplit(a: seq<ApiDevice>, b: seq<ApiDevice>, uuid: string, health: bool)
    ensures EntriesFor(a + b, uuid, health) == EntriesFor(a, uuid, health) + EntriesFor(b, uuid, health)
  {
    if a == [] {
      assert a + b == b;
    } else {
      assert (a + b)[1..] == a[1..] + b;
      EntriesForSplit(a[1..], b, uuid, health);
    }
  }

  lemma {:induction false} EntriesForUniform(list: seq<ApiDevice>, uuid: string, health: bool, yes: bool)
    requires forall p :: 0 <= p < |list| ==> BelongsTo(list[p], uuid, health) == yes
    ensures EntriesFor(list, uuid, health) == if yes then |list| else 0
  {
    if list != [] {
      EntriesForUniform(list[1..], uuid, health, yes);
    }
  }

  lemma EntriesForReplicas(d: Device, n: nat, uuid: string, health: bool)
    ensures EntriesFor(Replicas(d, n), uuid, health) == if uuid == d.uuid && health == d.health then n else 0
  {
    forall p: nat | p < n ensures ParseID(Replicas(d, n)[p].id) == Some((d.uuid, p)) {
      ParsePublishedID(d.uuid, p);
    }
    EntriesForUniform(Replicas(d, n), uuid, health, uuid == d.uuid && health == d.health);
  }

  lemma EntriesForNone(devs: seq<Device>, vCount: int, uuid: string, health: bool)
    requires forall k :: 0 <= k < |devs| ==> devs[k].uuid != uuid
    ensures EntriesFor(ApiList(devs, vCount), uuid, health) == 0
  {
    var list := ApiList(devs, vCount);
    forall p: nat | p < |list| ensures !BelongsTo(list[p], uuid, health) {
      EntryOrigin(devs, vCount, p);
    }
    EntriesForUniform(list, uuid, health, false);
  }

  lemma {:induction false} EntriesForDevice(devs: seq<Device>, vCount: int, k: nat, health: bool)
    requires DistinctUUIDs(devs) && k < |devs|
    ensures EntriesFor(ApiList(devs, vCount), devs[k].uuid, health)
         == if health == devs[k].health then Clamp(vCount) else 0
  {
    var uuid := devs[k].uuid;
    EntriesForSplit(Replicas(devs[0], Clamp(vCount)), ApiList(devs[1..], vCount), uuid, health);
    EntriesForReplicas(devs[0], Clamp(vCount), uuid, health);
    if k == 0 {
      EntriesForNone(devs[1..], vCount, uuid, health);
    } else {
      EntriesForDevice(devs[1..], vCount, k - 1, health);
    }
  }

  // ----- the HAMi registration

  const HAMI_VNPU_CORE_MAX_PERCENT := 100
  const TWO_31 := 0x8000_0000
  const TWO_32 := 0x1_0000_0000

  /** Conversion to a 32-bit signed integer keeps the low 32 bits. */
  function ToInt32(x: int): int {
    var low := x % TWO_32;
    if low < TWO_31 then low else low - TWO_32
  }

  predicate CountFits(vCount: int) {
    0 <= vCount < TWO_31 || (vCount < 0 && vCount % TWO_32 == 0)
  }

  lemma CountFitsIff(vCount: int)
    ensures ToInt32(vCount) == Clamp(vCount) <==> CountFits(vCount)
  {
    var low := vCount % TWO_32;
    if vCount >= TWO_32 {
      assert low < TWO_32;
    }
  }

  datatype DeviceInfo = DeviceInfo(
    index: nat,
    id: string,
    count: int,
    devmem: int,
    devcore: int,
    kind: string,
    health: bool,
    networkID: Option<int>)

  function NetworkID(kind: string, i: nat): Option<int> {
    if "Ascend910" <= kind then Some(if kind != "Ascend910C" && i > 3 then 1 else 0) else None
  }

  function InfoFor(dev: Device, i: nat, vCount: int, core: bool, kind: string): DeviceInfo {
    DeviceInfo(i, dev.uuid, ToInt32(vCount), ToInt32(dev.memory),
               if core then HAMI_VNPU_CORE_MAX_PERCENT else dev.aiCore,
               kind, dev.health, NetworkID(kind, i))
  }

  /** `v` is `x` as far as 32 bits can tell. */
  predicate LowBits(v: int, x: int) { -TWO_31 <= v < TWO_31 && (v - x) % TWO_32 == 0 }

  lemma ToInt32Is(x: int, v: int)
    ensures LowBits(v, x) <==> v == ToInt32(x)
  {
    var r := ToInt32(x);
    assert x == TWO_32 * (x / TWO_32) + x % TWO_32;
    assert r - x == TWO_32 * (if x % TWO_32 < TWO_31 then -(x / TWO_32) else -(x / TWO_32) - 1);
    if LowBits(v, x) {
      assert v - r == TWO_32 * ((v - x) / TWO_32 - (r - x) / TWO_32);
    }
  }

  /** What HAMi is told about device `i` of the list. Cards of the 910 family carry a network
      ID: 0 for the first four, and for all of a 910C, else 1. */
  predicate Describes(info: DeviceInfo, dev: Device, i: nat, vCount: int, core: bool, kind: string) {
    && info.index == i && info.id == dev.uuid && info.health == dev.health && info.kind == kind
    && LowBits(info.count, vCount) && LowBits(info.devmem, dev.memory)
    && (core ==> info.devcore == 100) && (!core ==> info.devcore == dev.aiCore)
    && (info.networkID.Some? <==> |kind| >= 9 && kind[..9] == "Ascend910")
    && (info.networkID == Some(1) <==> |kind| >= 9 && kind[..9] == "Ascend910" && kind != "Ascend910C" && i >= 4)
    && (info.networkID.Some? ==> info.networkID.value in {0, 1})
  }

  lemma InfoDescribes(dev: Device, i: nat, vCount: int, core: bool, kind: string)
    ensures Describes(InfoFor(dev, i, vCount, core, kind), dev, i, vCount, core, kind)
  {
    ToInt32Is(vCount, ToInt32(vCount));
    ToInt32Is(dev.memory, ToInt32(dev.memory));
  }

  method RegistrationList(devs: seq<Device>, vCount: int, core: bool, kind: string)
    returns (infos: seq<DeviceInfo>)
    ensures |infos| == |devs|
    ensures forall i :: 0 <= i < |devs| ==> infos[i] == InfoFor(devs[i], i, vCount, core, kind)
    ensures forall i :: 0 <= i < |devs| ==> Describes(infos[i], devs[i], i, vCount, core, kind)
  {
    infos := [];
    for i := 0 to |devs|
      invariant |infos| == i
      invariant forall k :: 0 <= k < i ==> infos[k] == InfoFor(devs[k], k, vCount, core, kind)
    {
      var devcore := devs[i].aiCore;
      if core {
        devcore := HAMI_VNPU_CORE_MAX_PERCENT;
      }
      var info := DeviceInfo(i, devs[i].uuid, ToInt32(vCount), ToInt32(devs[i].memory),
                             devcore, kind, devs[i].health, None);
      if "Ascend910" <= kind {
        if kind == "Ascend910C" {
          info := info.(networkID := Some(0));
        } else {
          info := info.(networkID := Some(if i > 3 then 1 else 0));
        }
      }
      infos := infos + [info];
    }
    forall i | 0 <= i < |devs| ensures Describes(infos[i], devs[i], i, vCount, core, kind) {
      InfoDescribes(devs[i], i, vCount, core, kind);
    }
  }

  /** Kubelet and HAMi see the same capacity of device `k` exactly when the virtual
      count survives the conversion to 32 bits; their health always agrees. */
  lemma CapacityAgreesIff(devs: seq<Device>, vCount: int, k: nat, core: bool, kind: string)
    requires DistinctUUIDs(devs) && k < |devs|
    ensures var info := InfoFor(devs[k], k, vCount, core, kind);
      var list := ApiList(devs, vCount);
      && EntriesFor(list, info.id, !info.health) == 0
      && (EntriesFor(list, info.id, info.health) == info.count <==> CountFits(vCount))
  {
    CountFitsIff(vCount);
    EntriesForDevice(devs, vCount, k, devs[k].health);
    EntriesForDevice(devs, vCount, k, !devs[k].health);
  }
}
