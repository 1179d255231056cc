/** The reader of a container's shared-memory file: a fixed layout of little-endian
    words, one 80-byte slot per process. */
module ShmemLayout {
  import opened Wrappers

  newtype Byte = x: int | 0 <= x < 256

  const TWO_64 := 0x1_0000_0000_0000_0000

  const MEM_LIMIT_OFFSET := 0
  const MEM_USED_OFFSET := 8
  const ACTIVE_WORKERS_OFFSET := 48
  const PROC_SLOT_SIZE := 80
  const PROC_SLOT_PID := 0
  const PROC_SLOT_HBM_OFFSET := 8
  const PROC_SLOT_ACTIVE := 72
  const PROCS_OFFSET := 1080
  const PROCS_MAX := 64
  const HBM_DEVICES := 8

  // ----- little-endian words

  function Word(bytes: seq<Byte>): nat {
    if bytes == [] then 0 else bytes[0] as int + 256 * Word(bytes[1..])
  }

  function Pow256(n: nat): nat { if n == 0 then 1 else 256 * Pow256(n - 1) }

  function Bytes(value: nat, n: nat): (bytes: seq<Byte>)
    ensures |bytes| == n
  {
    if n == 0 then [] else [(value % 256) as Byte] + Bytes(value / 256, n - 1)
  }

  lemma {:induction false} WordOfBytes(value: nat, n: nat)
    requires value < Pow256(n)
    ensures Word(Bytes(value, n)) == value
  {
    if n > 0 {
      WordOfBytes(value / 256, n - 1);
      assert Bytes(value, n)[1..] == Bytes(value / 256, n - 1);
    }
  }

  lemma Pow256Words()
    ensures Pow256(4) == 0x1_0000_0000 && Pow256(8) == TWO_64
  {
    assert Pow256(2) == 0x1_0000;
    assert Pow256(4) == 0x1_0000_0000;
    assert Pow256(6) == 0x1_0000_0000_0000;
  }

  // ----- the reader

  /** An atomic 8-byte load needs eight bytes and an aligned address. */
  function LoadUint64(data: seq<Byte>, offset: nat): nat
    requires offset + 8 <= |data| && offset % 8 == 0
  {
    Word(data[offset..offset + 8])
  }

  function LoadUint32(data: seq<Byte>, offset: nat): nat
    requires offset + 4 <= |data| && offset % 4 == 0
  {
    Word(data[offset..offset + 4])
  }

  datatype PodStats = PodStats(memoryUsed: nat, memoryLimit: nat, hasActiveWorkers: bool)

  /** The primary fields as the reader finds them. */
  function Stats(data: seq<Byte>): PodStats
    requires |data| >= PROCS_OFFSET + PROC_SLOT_SIZE
  {
    PodStats(LoadUint64(data, MEM_USED_OFFSET), LoadUint64(data, MEM_LIMIT_OFFSET),
             LoadUint32(data, ACTIVE_WORKERS_OFFSET) != 0)
  }

  function SlotBase(i: nat): nat { PROCS_OFFSET + i * PROC_SLOT_SIZE }

  /** How many slots the reader looks at: those that fit entirely, at most 64. */
  function SlotsRead(size: nat): nat {
    if size < PROCS_OFFSET then 0
    else if (size - PROCS_OFFSET) / PROC_SLOT_SIZE < PROCS_MAX then (size - PROCS_OFFSET) / PROC_SLOT_SIZE
    else PROCS_MAX
  }

  lemma SlotFits(size: nat, i: nat)
    ensures i < PROCS_MAX ==> (i < SlotsRead(size) <==> SlotBase(i) + PROC_SLOT_SIZE <= size)
    ensures i < SlotsRead(size) ==> i < PROCS_MAX
  {
  }

  predicate SlotActive(data: seq<Byte>, i: nat)
    requires i < SlotsRead(|data|)
  {
    SlotFits(|data|, i);
    LoadUint32(data, SlotBase(i) + PROC_SLOT_ACTIVE) != 0
  }

  function SlotUsage(data: seq<Byte>, i: nat, d: nat): nat
    requires i < SlotsRead(|data|) && d < HBM_DEVICES
  {
    SlotFits(|data|, i);
    LoadUint64(data, SlotBase(i) + PROC_SLOT_HBM_OFFSET + d * 8)
  }

  /** Usage of device `d` over the first `n` slots, inactive slots counting nothing. */
  function Usage(data: seq<Byte>, n: nat, d: nat): nat
    requires n <= SlotsRead(|data|) && d < HBM_DEVICES
  {
    if n == 0 then 0
    else Usage(data, n - 1, d) + if SlotActive(data, n - 1) then SlotUsage(data, n - 1, d) else 0
  }

  /** The reader's result: per device the usage of all slots read, modulo 2^64. */
  function DeviceMemory(data: seq<Byte>): (r: seq<nat>)
    ensures |r| == HBM_DEVICES
  {
    seq(HBM_DEVICES, d requires 0 <= d < HBM_DEVICES => Usage(data, SlotsRead(|data|), d) % TWO_64)
  }

  class ShmemReader {
    const data: seq<Byte>

    /** A file that cannot hold one slot is refused. */
    static method OpenLocalShmem(file: Option<seq<Byte>>) returns (r: Option<ShmemReader>)
      ensures r.Some? <==> file.Some? && |file.value| >= 1160
      ensures r.Some? ==> r.value.data == file.value && SlotsRead(|r.value.data|) >= 1
    {
      if file == None || |file.value| < PROCS_OFFSET + PROC_SLOT_SIZE {
        return None;
      }
      var reader := new ShmemReader(file.value);
      return Some(reader);
    }

    constructor (data: seq<Byte>)
      ensures this.data == data
    {
      this.data := data;
    }

    method ReadPodStats() returns (stats: PodStats)
      requires |data| >= PROCS_OFFSET + PROC_SLOT_SIZE
      ensures stats == Stats(data)
    {
      stats := PodStats(LoadUint64(data, MEM_USED_OFFSET), LoadUint64(data, MEM_LIMIT_OFFSET),
                        LoadUint32(data, ACTIVE_WORKERS_OFFSET) != 0);
    }

    /** The inner loop: adds the eight counters of slot `i`. */
    method AddSlot(devMem: array<nat>, i: nat)
      requires devMem.Length == HBM_DEVICES && i < SlotsRead(|data|) && SlotActive(data, i)
      requires forall d :: 0 <= d < HBM_DEVICES ==> devMem[d] == Usage(data, i, d) % TWO_64
      modifies devMem
      ensures forall d :: 0 <= d < HBM_DEVICES ==> devMem[d] == Usage(data, i + 1, d) % TWO_64
    {
      SlotFits(|data|, i);
      for d := 0 to HBM_DEVICES
        invariant forall e :: 0 <= e < d ==> devMem[e] == Usage(data, i + 1, e) % TWO_64
        invariant forall e :: d <= e < HBM_DEVICES ==> devMem[e] == Usage(data, i, e) % TWO_64
      {
        AddWraps(Usage(data, i, d), SlotUsage(data, i, d));
        assert Usage(data, i + 1, d) == Usage(data, i, d) + SlotUsage(data, i, d);
        devMem[d] := (devMem[d] + LoadUint64(data, SlotBase(i) + PROC_SLOT_HBM_OFFSET + d * 8)) % TWO_64;
      }
    }

    /** Every load is in bounds and aligned; sums wrap at 64 bits. */
    method ReadMemoryByDevice() returns (devMem: array<nat>)
      ensures fresh(devMem) && devMem[..] == DeviceMemory(data)
    {
      devMem := new nat[HBM_DEVICES](_ => 0);
      var i := 0;
      while i < PROCS_MAX
        invariant i <= SlotsRead(|data|)
        invariant forall d :: 0 <= d < HBM_DEVICES ==> devMem[d] == Usage(data, i, d) % TWO_64
        decreases PROCS_MAX - i
      {
        var base := PROCS_OFFSET + i * PROC_SLOT_SIZE;
        SlotFits(|data|, i);
        if base + PROC_SLOT_SIZE > |data| {
          break;
        }
        var isActive := LoadUint32(data, base + PROC_SLOT_ACTIVE);
        if isActive != 0 {
          AddSlot(devMem, i);
        }
        i := i + 1;
      }
      SlotFits(|data|, i);
    }
  }

  lemma AddWraps(x: nat, y: nat)
    ensures (x % TWO_64 + y) % TWO_64 == (x + y) % TWO_64
  {
    var q := x / TWO_64;
    assert x + y == (x % TWO_64 + y) + TWO_64 * q;
  }

  // ----- the writer's side

  /** One process slot: the layout has a process ID, eight counters and an active flag. */
  datatype ProcSlot = ProcSlot(pid: nat, hbm: seq<nat>, active: nat)

  predicate ValidSlot(slot: ProcSlot) {
    && slot.pid < TWO_64
    && |slot.hbm| == HBM_DEVICES
    && (forall d :: 0 <= d < HBM_DEVICES ==> slot.hbm[d] < TWO_64)
    && slot.active < 0x1_0000_0000
  }

  lemma SubSlice(data: seq<Byte>, base: nat, size: nat, lo: nat, hi: nat)
    requires base + size <= |data| && lo <= hi <= size
    ensures data[base + lo..base + hi] == data[base..base + size][lo..hi]
  {
    var mid := data[base..base + size];
    forall k | 0 <= k < hi - lo ensures data[base + lo..base + hi][k] == mid[lo..hi][k] {
      assert mid[lo + k] == data[base + (lo + k)];
    }
  }

  lemma MiddleSlice(a: seq<Byte>, b: seq<Byte>, c: seq<Byte>, lo: nat, hi: nat)
    requires lo <= hi <= |b|
    ensures (a + b + c)[|a| + lo..|a| + hi] == b[lo..hi]
  {
    var all := a + b + c;
    assert all[|a|..|a| + |b|] == b;
    SubSlice(all, |a|, |b|, lo, hi);
  }

  function EncodeWords(values: seq<nat>): (bytes: seq<Byte>)
    ensures |bytes| == 8 * |values|
  {
    if values == [] then [] else EncodeWords(values[..|values| - 1]) + Bytes(values[|values| - 1], 8)
  }

  lemma {:induction false} EncodeWordsAt(values: seq<nat>, d: nat)
    requires d < |values|
    ensures EncodeWords(values)[8 * d..8 * d + 8] == Bytes(values[d], 8)
  {
    var n := |values| - 1;
    if d < n {
      EncodeWordsAt(values[..n], d);
      var front, last := EncodeWords(values[..n]), Bytes(values[n], 8);
      assert EncodeWords(values) == [] + front + last;
      MiddleSlice([], front, last, 8 * d, 8 * d + 8);
    }
  }

  /** `padding` is whatever the four unused bytes hold. */
  function EncodeSlot(slot: ProcSlot, padding: seq<Byte>): (bytes: seq<Byte>)
    requires ValidSlot(slot) && |padding| == 4
    ensures |bytes| == PROC_SLOT_SIZE
  {
    Bytes(slot.pid, 8) + EncodeWords(slot.hbm) + Bytes(slot.active, 4) + padding
  }

  function EncodeSlots(slots: seq<ProcSlot>, padding: seq<Byte>): (bytes: seq<Byte>)
    requires |padding| == 4 && forall i :: 0 <= i < |slots| ==> ValidSlot(slots[i])
    ensures |bytes| == PROC_SLOT_SIZE * |slots|
  {
    if slots == [] then []
    else EncodeSlots(slots[..|slots| - 1], padding) + EncodeSlot(slots[|slots| - 1], padding)
  }

  lemma {:induction false} EncodeSlotsAt(slots: seq<ProcSlot>, padding: seq<Byte>, i: nat)
    requires |padding| == 4 && forall k :: 0 <= k < |slots| ==> ValidSlot(slots[k])
    requires i < |slots|
    ensures EncodeSlots(slots, padding)[PROC_SLOT_SIZE * i..PROC_SLOT_SIZE * i + PROC_SLOT_SIZE]
         == EncodeSlot(slots[i], padding)
  {
    var n := |slots| - 1;
    if i < n {
      EncodeSlotsAt(slots[..n], padding, i);
      var front, last := EncodeSlots(slots[..n], padding), EncodeSlot(slots[n], padding);
      var lo := PROC_SLOT_SIZE * i;
      assert EncodeSlots(slots, padding) == [] + front + last;
      MiddleSlice([], front, last, lo, lo + PROC_SLOT_SIZE);
    }
  }

  lemma SlotFields(slot: ProcSlot, padding: seq<Byte>, d: nat)
    requires ValidSlot(slot) && |padding| == 4 && d < HBM_DEVICES
    ensures Word(EncodeSlot(slot, padding)[8 + 8 * d..8 + 8 * d + 8]) == slot.hbm[d]
    ensures Word(EncodeSlot(slot, padding)[72..76]) == slot.active
  {
    var bytes := EncodeSlot(slot, padding);
    Pow256Words();
    EncodeWordsAt(slot.hbm, d);
    var pid, words, flag := Bytes(slot.pid, 8), EncodeWords(slot.hbm), Bytes(slot.active, 4);
    assert bytes == pid + words + (flag + padding);
    MiddleSlice(pid, words, flag + padding, 8 * d, 8 * d + 8);
    assert bytes == (pid + words) + flag + padding;
    MiddleSlice(pid + words, flag, padding, 0, 4);
    assert flag[0..4] == flag;
    WordOfBytes(slot.hbm[d], 8);
    WordOfBytes(slot.active, 4);
  }

  /** A file image: any header, the encoded slots, any rest too short for another slot. */
  function Image(header: seq<Byte>, slots: seq<ProcSlot>, padding: seq<Byte>, rest: seq<Byte>): seq<Byte>
    requires |header| == PROCS_OFFSET && |padding| == 4
    requires forall i :: 0 <= i < |slots| ==> ValidSlot(slots[i])
  {
    header + EncodeSlots(slots, padding) + rest
  }

  function Min(a: nat, b: nat): nat { if a < b then a else b }

  lemma ImageSlots(header: seq<Byte>, slots: seq<ProcSlot>, padding: seq<Byte>, rest: seq<Byte>)
    requires |header| == PROCS_OFFSET && |padding| == 4 && |rest| < PROC_SLOT_SIZE
    requires forall i :: 0 <= i < |slots| ==> ValidSlot(slots[i])
    ensures SlotsRead(|Image(header, slots, padding, rest)|) == Min(|slots|, PROCS_MAX)
  {
  }

  lemma ImageSlot(header: seq<Byte>, slots: seq<ProcSlot>, padding: seq<Byte>, rest: seq<Byte>, i: nat)
    requires |header| == PROCS_OFFSET && |padding| == 4
    requires forall k :: 0 <= k < |slots| ==> ValidSlot(slots[k])
    requires i < |slots|
    ensures SlotBase(i) + PROC_SLOT_SIZE <= |Image(header, slots, padding, rest)|
    ensures Image(header, slots, padding, rest)[SlotBase(i)..SlotBase(i) + PROC_SLOT_SIZE]
         == EncodeSlot(slots[i], padding)
  {
    var lo := PROC_SLOT_SIZE * i;
    EncodeSlotsAt(slots, padding, i);
    MiddleSlice(header, EncodeSlots(slots, padding), rest, lo, lo + PROC_SLOT_SIZE);
  }

  /** What the reader finds in a slot that holds an encoded one. */
  lemma SlotDecodes(data: seq<Byte>, slot: ProcSlot, padding: seq<Byte>, i: nat, d: nat)
    requires ValidSlot(slot) && |padding| == 4 && i < SlotsRead(|data|) && d < HBM_DEVICES
    requires SlotBase(i) + PROC_SLOT_SIZE <= |data|
    requires data[SlotBase(i)..SlotBase(i) + PROC_SLOT_SIZE] == EncodeSlot(slot, padding)
    ensures SlotActive(data, i) <==> slot.active != 0
    ensures SlotUsage(data, i, d) == slot.hbm[d]
  {
    var base := SlotBase(i);
    SlotFields(slot, padding, d);
    SubSlice(data, base, PROC_SLOT_SIZE, 72, 76);
    SubSlice(data, base, PROC_SLOT_SIZE, 8 + 8 * d, 8 + 8 * d + 8);
    assert base + PROC_SLOT_HBM_OFFSET + d * 8 == base + (8 + 8 * d);
  }

  /** The sum the limiter's side would compute over its own slots. */
  function SlotSum(slots: seq<ProcSlot>, n: nat, d: nat): nat
    requires n <= |slots| && d < HBM_DEVICES
    requires forall i :: 0 <= i < |slots| ==> ValidSlot(slots[i])
  {
    if n == 0 then 0
    else SlotSum(slots, n - 1, d) + if slots[n - 1].active != 0 then slots[n - 1].hbm[d] else 0
  }

  lemma {:induction false} UsageOfImage(header: seq<Byte>, slots: seq<ProcSlot>, padding: seq<Byte>, rest: seq<Byte>,
                                        n: nat, d: nat)
    requires |header| == PROCS_OFFSET && |padding| == 4 && |rest| < PROC_SLOT_SIZE
    requires forall i :: 0 <= i < |slots| ==> ValidSlot(slots[i])
    requires n <= Min(|slots|, PROCS_MAX) && d < HBM_DEVICES
    ensures SlotsRead(|Image(header, slots, padding, rest)|) == Min(|slots|, PROCS_MAX)
    ensures Usage(Image(header, slots, padding, rest), n, d) == SlotSum(slots, n, d)
  {
    ImageSlots(header, slots, padding, rest);
    if n > 0 {
      UsageOfImage(header, slots, padding, rest, n - 1, d);
      ImageSlot(header, slots, padding, rest, n - 1);
      SlotDecodes(Image(header, slots, padding, rest), slots[n - 1], padding, n - 1, d);
    }
  }

  /** Round trip: reading back any written slots gives, per device, the usage summed over the
      active ones among the first 64, modulo 2^64, whatever the header, the padding and the
      trailing bytes hold. */
  lemma ReadBack(header: seq<Byte>, slots: seq<ProcSlot>, padding: seq<Byte>, rest: seq<Byte>, d: nat)
    requires |header| == PROCS_OFFSET && |padding| == 4 && |rest| < PROC_SLOT_SIZE
    requires forall i :: 0 <= i < |slots| ==> ValidSlot(slots[i])
    requires d < HBM_DEVICES
    ensures DeviceMemory(Image(header, slots, padding, rest))[d] == SlotSum(slots, Min(|slots|, 64), d) % TWO_64
  {
    UsageOfImage(header, slots, padding, rest, Min(|slots|, PROCS_MAX), d);
  }

  /** The header before the slots: two words, 32 bytes of settings, the worker count and the
      reports. */
  datatype Header = Header(limit: nat, used: nat, settings: seq<Byte>, workers: nat, reports: seq<Byte>)

  predicate ValidHeader(h: Header) {
    && h.limit < TWO_64 && h.used < TWO_64 && h.workers < 0x1_0000_0000
    && |h.settings| == 32 && |h.reports| == 1028
  }

  function EncodeHeader(h: Header): (bytes: seq<Byte>)
    requires ValidHeader(h)
    ensures |bytes| == PROCS_OFFSET
  {
    Bytes(h.limit, 8) + Bytes(h.used, 8) + h.settings + Bytes(h.workers, 4) + h.reports
  }

  /** The bytes in the middle of a file read back as the word they encode. */
  lemma WordInside(a: seq<Byte>, value: nat, n: nat, c: seq<Byte>)
    requires value < Pow256(n)
    ensures Word((a + Bytes(value, n) + c)[|a|..|a| + n]) == value
  {
    MiddleSlice(a, Bytes(value, n), c, 0, n);
    assert Bytes(value, n)[0..n] == Bytes(value, n);
    WordOfBytes(value, n);
  }

  lemma Regroup(a: seq<Byte>, b: seq<Byte>, c: seq<Byte>, d: seq<Byte>, e: seq<Byte>)
    ensures a + b + c + d + e == [] + a + (b + c + d + e)
    ensures a + b + c + d + e == a + b + (c + d + e)
    ensures a + b + c + d + e == (a + b + c) + d + e
  {
  }

  /** Round trip of the primary fields, whatever follows the header. */
  lemma HeaderReadBack(h: Header, tail: seq<Byte>)
    requires ValidHeader(h) && |tail| >= PROC_SLOT_SIZE
    ensures Stats(EncodeHeader(h) + tail) == PodStats(h.used, h.limit, h.workers != 0)
  {
    var limit, used, workers, after := Bytes(h.limit, 8), Bytes(h.used, 8), Bytes(h.workers, 4), h.reports + tail;
    assert EncodeHeader(h) + tail == limit + used + h.settings + workers + after;
    Pow256Words();
    Regroup(limit, used, h.settings, workers, after);
    WordInside([], h.limit, 8, used + h.settings + workers + after);
    WordInside(limit, h.used, 8, h.settings + workers + after);
    WordInside(limit + used + h.settings, h.workers, 4, after);
  }

  /** A whole file, header and slots, reads back as what was written. */
  lemma ImageReadBack(h: Header, slots: seq<ProcSlot>, padding: seq<Byte>, rest: seq<Byte>, d: nat)
    requires ValidHeader(h) && slots != [] && |padding| == 4 && |rest| < PROC_SLOT_SIZE
    requires forall i :: 0 <= i < |slots| ==> ValidSlot(slots[i])
    requires d < HBM_DEVICES
    ensures var data := Image(EncodeHeader(h), slots, padding, rest);
      && Stats(data) == PodStats(h.used, h.limit, h.workers != 0)
      && DeviceMemory(data)[d] == SlotSum(slots, Min(|slots|, 64), d) % TWO_64
  {
    ReadBack(EncodeHeader(h), slots, padding, rest, d);
    HeaderReadBack(h, EncodeSlots(slots, padding) + rest);
    var encoded := EncodeSlots(slots, padding);
    assert EncodeHeader(h) + (encoded + rest) == EncodeHeader(h) + encoded + rest;
  }

  // ----- no field overlaps another

  /** The fields the reader loads: three primary ones and those of each slot. */
  datatype Field =
    | MemLimit
    | MemUsed
    | ActiveWorkers
    | PID(slot: nat)
    | HBM(slot: nat, d: nat)
    | Active(slot: nat)

  predicate ValidField(f: Field) { f.HBM? ==> f.d < HBM_DEVICES }

  predicate Primary(f: Field) { f.MemLimit? || f.MemUsed? || f.ActiveWorkers? }

  function FieldStart(f: Field): nat {
    match f
    case MemLimit => MEM_LIMIT_OFFSET
    case MemUsed => MEM_USED_OFFSET
    case ActiveWorkers => ACTIVE_WORKERS_OFFSET
    case PID(i) => SlotBase(i) + PROC_SLOT_PID
    case HBM(i, d) => SlotBase(i) + PROC_SLOT_HBM_OFFSET + d * 8
    case Active(i) => SlotBase(i) + PROC_SLOT_ACTIVE
  }

  function FieldSize(f: Field): nat { if f.Active? || f.ActiveWorkers? then 4 else 8 }

  lemma FieldInSlot(f: Field)
    requires ValidField(f)
    ensures FieldStart(f) % FieldSize(f) == 0
    ensures Primary(f) ==> FieldStart(f) + FieldSize(f) <= PROCS_OFFSET
    ensures !Primary(f) ==> SlotBase(f.slot) <= FieldStart(f) && FieldStart(f) + FieldSize(f) <= SlotBase(f.slot + 1)
  {
    match f
    case PID(i) => Multiple(135 + 10 * i, 8);
    case HBM(i, d) => Multiple(135 + 10 * i + 1 + d, 8);
    case Active(i) => Multiple(2 * (135 + 10 * i) + 18, 4);
    case _ =>
  }

  lemma Multiple(n: nat, m: nat)
    requires m == 4 || m == 8
    ensures (m * n) % m == 0
  {
  }

  /** Distinct fields, primary or of any slots, occupy disjoint bytes, each aligned to its size. */
  lemma FieldsDisjoint(f: Field, g: Field)
    requires ValidField(f) && ValidField(g) && f != g
    ensures FieldStart(f) + FieldSize(f) <= FieldStart(g) || FieldStart(g) + FieldSize(g) <= FieldStart(f)
    ensures FieldStart(f) % FieldSize(f) == 0
  {
    FieldInSlot(f);
    FieldInSlot(g);
    if Primary(f) || Primary(g) || f.slot == g.slot {
      OffsetsDisjoint(f, g);
    } else if f.slot < g.slot {
      assert SlotBase(f.slot + 1) <= SlotBase(g.slot);
    } else {
      assert SlotBase(g.slot + 1) <= SlotBase(f.slot);
    }
  }

  lemma OffsetsDisjoint(f: Field, g: Field)
    requires ValidField(f) && ValidField(g) && f != g && (Primary(f) || Primary(g) || f.slot == g.slot)
    ensures FieldStart(f) + FieldSize(f) <= FieldStart(g) || FieldStart(g) + FieldSize(g) <= FieldStart(f)
  {
  }
}
