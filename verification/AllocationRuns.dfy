/** What the Allocate protocol guarantees over whole runs of calls. */
module AllocationRuns {
  import opened Wrappers
  import opened Allocation
  import Seqs

  /** The non-empty slots below position `c`, each with its position, in order. */
  function PendingUpTo(slots: seq<Slot>, c: nat): (pairs: seq<(nat, Slot)>)
    requires c <= |slots|
    ensures |pairs| <= c
  {
    if c == 0 then []
    else PendingUpTo(slots, c - 1) + if slots[c - 1] != [] then [(c - 1, slots[c - 1])] else []
  }

  function Pending(slots: seq<Slot>): seq<(nat, Slot)> { PendingUpTo(slots, |slots|) }

  lemma {:induction false} PendingSorted(slots: seq<Slot>, c: nat)
    requires c <= |slots|
    ensures forall k :: 0 <= k < |PendingUpTo(slots, c)| ==>
      PendingUpTo(slots, c)[k].0 < c && PendingUpTo(slots, c)[k].1 == slots[PendingUpTo(slots, c)[k].0]
    ensures forall j, k :: 0 <= j < k < |PendingUpTo(slots, c)| ==>
      PendingUpTo(slots, c)[j].0 < PendingUpTo(slots, c)[k].0
  {
    if c > 0 {
      PendingSorted(slots, c - 1);
    }
  }

  /** `slots` with everything below position `c` erased. */
  function Blank(slots: seq<Slot>, c: nat): (r: seq<Slot>)
    requires c <= |slots|
    ensures |r| == |slots|
  {
    seq(|slots|, i requires 0 <= i < |slots| => if i < c then [] else slots[i])
  }

  /** What is pending splits at any cut into what lies below it and what survives the erasure. */
  lemma {:induction false} BlankSplits(slots: seq<Slot>, c: nat, d: nat)
    requires c <= d <= |slots|
    ensures PendingUpTo(slots, d) == PendingUpTo(slots, c) + PendingUpTo(Blank(slots, c), d)
  {
    if d == c {
      NonePending(Blank(slots, c), d);
    } else {
      var rest := Blank(slots, c);
      var x: seq<(nat, Slot)> := if slots[d - 1] != [] then [(d - 1, slots[d - 1])] else [];
      BlankSplits(slots, c, d - 1);
      assert rest[d - 1] == slots[d - 1] && PendingUpTo(rest, d) == PendingUpTo(rest, d - 1) + x;
      assert PendingUpTo(slots, d) == PendingUpTo(slots, d - 1) + x;
      Seqs.Assoc(PendingUpTo(slots, c), PendingUpTo(rest, d - 1), x);
    }
  }

  lemma {:induction false} NonePending(slots: seq<Slot>, c: nat)
    requires c <= |slots| && forall i :: 0 <= i < c ==> slots[i] == []
    ensures PendingUpTo(slots, c) == []
  {
    if c > 0 {
      NonePending(slots, c - 1);
    }
  }

  function Pairs(grants: seq<Grant>): (pairs: seq<(nat, Slot)>)
    ensures |pairs| == |grants|
  {
    seq(|grants|, k requires 0 <= k < |grants| => (grants[k].index, grants[k].devs))
  }

  /** `p` handed out exactly the pending slots below `cut`, whole and in order, and erased
      exactly those. */
  ghost predicate Consumed(slots: seq<Slot>, p: Progress, cut: nat) {
    cut <= |slots| && p.slots == Blank(slots, cut) && Pairs(p.grants) == PendingUpTo(slots, cut)
  }

  /** With everything below `cut` erased, the first slot still pending is the next pending
      slot of the original annotation. */
  lemma NextPending(slots: seq<Slot>, cut: nat)
    requires cut <= |slots|
    ensures var k := FirstPending(Blank(slots, cut));
      var n := |PendingUpTo(slots, cut)|;
      if k == |slots| then n == |Pending(slots)|
      else
        && k >= cut
        && PendingUpTo(slots, k + 1) == PendingUpTo(slots, cut) + [(k, slots[k])]
        && n < |Pending(slots)| && Pending(slots)[n] == (k, slots[k])
  {
    var rest := Blank(slots, cut);
    var k := FirstPending(rest);
    NonePending(rest, k);
    if k == |slots| {
      BlankSplits(slots, cut, |slots|);
    } else {
      PendingGap(slots, cut, k);
      PendingAt(slots, k);
    }
  }

  /** Nothing is pending between `cut` and `k`. */
  lemma PendingGap(slots: seq<Slot>, cut: nat, k: nat)
    requires cut <= |slots| && k < |slots|
    requires forall i :: 0 <= i < k ==> Blank(slots, cut)[i] == []
    requires Blank(slots, cut)[k] != []
    ensures k >= cut && slots[k] != [] && PendingUpTo(slots, k) == PendingUpTo(slots, cut)
  {
    NonePending(Blank(slots, cut), k);
    BlankSplits(slots, cut, k);
  }

  lemma PendingAt(slots: seq<Slot>, k: nat)
    requires k < |slots| && slots[k] != []
    ensures PendingUpTo(slots, k + 1) == PendingUpTo(slots, k) + [(k, slots[k])]
    ensures var n := |PendingUpTo(slots, k)|;
      n < |Pending(slots)| && Pending(slots)[n] == (k, slots[k])
  {
    PendingStays(slots, k + 1, |slots|);
    assert PendingUpTo(slots, k + 1)[|PendingUpTo(slots, k)|] == (k, slots[k]);
  }

  lemma {:induction false} PendingStays(slots: seq<Slot>, c: nat, d: nat)
    requires c <= d <= |slots|
    ensures PendingUpTo(slots, c) <= PendingUpTo(slots, d)
  {
    if c < d {
      PendingStays(slots, c, d - 1);
    }
  }

  lemma PairsSnoc(grants: seq<Grant>, g: Grant)
    ensures Pairs(grants + [g]) == Pairs(grants) + [(g.index, g.devs)]
  {
  }

  lemma BlankNext(slots: seq<Slot>, cut: nat, k: nat)
    requires cut <= k < |slots| && forall i :: 0 <= i < k ==> Blank(slots, cut)[i] == []
    ensures Blank(slots, k + 1) == Blank(slots, cut)[k := []]
  {
  }

  /** A request that is served adds one grant, of the first pending slot, and erases that slot. */
  lemma ServeOneShape(env: Env, lookup: map<string, RuntimeInfo>, p: Progress, size: nat) returns (g: Grant)
    requires ServeOne(env, lookup, p, size).Ok?
    ensures FirstPending(p.slots) < |p.slots|
    ensures var k, q := FirstPending(p.slots), ServeOne(env, lookup, p, size).value;
      q.grants == p.grants + [g] && g.index == k && g.devs == p.slots[k] && q.slots == p.slots[k := []]
  {
    var q := ServeOne(env, lookup, p, size).value;
    g := q.grants[|p.grants|];
  }

  lemma ConsumedNext(slots: seq<Slot>, p: Progress, cut: nat, g: Grant, q: Progress)
    requires Consumed(slots, p, cut) && FirstPending(p.slots) < |p.slots|
    requires var k := FirstPending(p.slots);
      q.grants == p.grants + [g] && g.index == k && g.devs == p.slots[k] && q.slots == p.slots[k := []]
    ensures Consumed(slots, q, FirstPending(p.slots) + 1)
  {
    var k := FirstPending(p.slots);
    NextPending(slots, cut);
    BlankNext(slots, cut, k);
    PairsSnoc(p.grants, g);
    assert g.devs == slots[k];
  }

  lemma ServeOneConsumes(env: Env, lookup: map<string, RuntimeInfo>, slots: seq<Slot>, p: Progress, size: nat, cut: nat)
    requires Consumed(slots, p, cut) && ServeOne(env, lookup, p, size).Ok?
    ensures FirstPending(p.slots) < |slots|
    ensures Consumed(slots, ServeOne(env, lookup, p, size).value, FirstPending(p.slots) + 1)
  {
    var g := ServeOneShape(env, lookup, p, size);
    ConsumedNext(slots, p, cut, g, ServeOne(env, lookup, p, size).value);
  }

  lemma {:induction false} ServeConsumes(env: Env, lookup: map<string, RuntimeInfo>, slots: seq<Slot>, p: Progress,
                                         sizes: seq<nat>, cut: nat) returns (next: nat)
    requires Consumed(slots, p, cut) && Serve(env, lookup, p, sizes).Ok?
    ensures Consumed(slots, Serve(env, lookup, p, sizes).value, next)
  {
    if sizes == [] {
      next := cut;
    } else {
      var front := sizes[..|sizes| - 1];
      next := ServeConsumes(env, lookup, slots, p, front, cut);
      var before := Serve(env, lookup, p, front).value;
      ServeOneConsumes(env, lookup, slots, before, sizes[|sizes| - 1], next);
      next := FirstPending(before.slots) + 1;
    }
  }

  // ----- whole runs

  function Join(p: Progress, q: Progress): Progress { Progress(p.grants + q.grants, q.slots) }

  /** Everything handed out by the successful calls, and the annotation left stored. */
  function RunCalls(slots: seq<Slot>, calls: seq<Call>): Progress {
    if calls == [] then Progress([], slots)
    else
      var before := RunCalls(slots, calls[..|calls| - 1]);
      match Outcome(calls[|calls| - 1], before.slots)
      case Err(_) => before
      case Ok(q) => Join(before, q)
  }

  lemma ServeOneFrame(env: Env, lookup: map<string, RuntimeInfo>, p: Progress, q: Progress, size: nat)
    ensures ServeOne(env, lookup, Join(p, q), size) ==
      match ServeOne(env, lookup, q, size) case Err(e) => Err(e) case Ok(r) => Ok(Join(p, r))
  {
    var r := ServeOne(env, lookup, q, size);
    if r.Ok? {
      Seqs.Assoc(p.grants, q.grants, [r.value.grants[|q.grants|]]);
    }
  }

  /** Earlier grants do not influence later ones. */
  lemma {:induction false} ServeFrame(env: Env, lookup: map<string, RuntimeInfo>, p: Progress, sizes: seq<nat>)
    ensures var alone := Serve(env, lookup, Progress([], p.slots), sizes);
      Serve(env, lookup, p, sizes) == match alone case Err(e) => Err(e) case Ok(q) => Ok(Join(p, q))
  {
    if sizes == [] {
      assert p.grants + [] == p.grants;
    } else {
      var front := sizes[..|sizes| - 1];
      ServeFrame(env, lookup, p, front);
      var alone := Serve(env, lookup, Progress([], p.slots), front);
      if alone.Ok? {
        ServeOneFrame(env, lookup, p, alone.value, sizes[|sizes| - 1]);
      }
    }
  }

  lemma {:induction false} RunConsumes(slots: seq<Slot>, calls: seq<Call>) returns (cut: nat)
    ensures Consumed(slots, RunCalls(slots, calls), cut)
  {
    if calls == [] {
      cut := 0;
    } else {
      var front, call := calls[..|calls| - 1], calls[|calls| - 1];
      cut := RunConsumes(slots, front);
      var before := RunCalls(slots, front);
      if Outcome(call, before.slots).Ok? {
        var lookup := Lookup(call.env.infos.value);
        ServeFrame(call.env, lookup, before, call.sizes);
        cut := ServeConsumes(call.env, lookup, slots, before, call.sizes, cut);
      }
    }
  }

  lemma ConsumedInOrder(slots: seq<Slot>, p: Progress, cut: nat)
    requires Consumed(slots, p, cut)
    ensures forall k :: 0 <= k < |p.grants| ==>
      p.grants[k].index < |slots| && p.grants[k].devs == slots[p.grants[k].index]
    ensures forall j, k :: 0 <= j < k < |p.grants| ==> p.grants[j].index < p.grants[k].index
  {
    PendingSorted(slots, cut);
    var pairs := PendingUpTo(slots, cut);
    assert |pairs| == |p.grants|;
    assert forall k :: 0 <= k < |p.grants| ==> pairs[k] == (p.grants[k].index, p.grants[k].devs);
  }

  /** Conservation: over any calls, with any batch sizes and any failures, what was handed
      out followed by what is still pending is what was pending at first, in order; each
      grant is one original slot, whole, and comes from a later position than the one
      before it, so no slot is handed out twice. */
  lemma NothingLostOrRepeated(slots: seq<Slot>, calls: seq<Call>)
    ensures var run := RunCalls(slots, calls);
      && |run.slots| == |slots|
      && Pairs(run.grants) + Pending(run.slots) == Pending(slots)
      && (forall k :: 0 <= k < |run.grants| ==>
            run.grants[k].index < |slots| && run.grants[k].devs == slots[run.grants[k].index])
      && (forall j, k :: 0 <= j < k < |run.grants| ==> run.grants[j].index < run.grants[k].index)
  {
    var cut := RunConsumes(slots, calls);
    BlankSplits(slots, cut, |slots|);
    ConsumedInOrder(slots, RunCalls(slots, calls), cut);
  }

  // ----- when a batch commits

  ghost predicate Meets(env: Env, pair: (nat, Slot), size: nat) {
    |pair.1| == size && AllKnown(env.devs, pair.1)
  }

  /** Enough pending slots, the k-th of the k-th requested size, all UUIDs known. */
  ghost predicate Servable(env: Env, slots: seq<Slot>, sizes: seq<nat>) {
    && |sizes| <= |Pending(slots)|
    && forall k :: 0 <= k < |sizes| ==> Meets(env, Pending(slots)[k], sizes[k])
  }

  /** The grant hands out that pending slot under the name of its container. */
  ghost predicate ServedFrom(env: Env, lookup: map<string, RuntimeInfo>, g: Grant, pair: (nat, Slot)) {
    && g.index == pair.0
    && g.devs == pair.1
    && ResponseFor(env, lookup, CtrName(env, pair.0), pair.1) == Ok(g.response)
  }

  lemma ServeOneIff(env: Env, lookup: map<string, RuntimeInfo>, slots: seq<Slot>, p: Progress, size: nat, cut: nat)
    requires Consumed(slots, p, cut)
    ensures var n := |p.grants|;
      var r := ServeOne(env, lookup, p, size);
      && (r.Ok? <==> n < |Pending(slots)| && Meets(env, Pending(slots)[n], size))
      && (r.Ok? ==> |r.value.grants| == n + 1 && r.value.grants[..n] == p.grants
                    && ServedFrom(env, lookup, r.value.grants[n], Pending(slots)[n]))
  {
    NextPending(slots, cut);
    assert |Pairs(p.grants)| == |p.grants|;
  }

  ghost predicate AllServed(env: Env, lookup: map<string, RuntimeInfo>, slots: seq<Slot>, grants: seq<Grant>) {
    && |grants| <= |Pending(slots)|
    && forall k :: 0 <= k < |grants| ==> ServedFrom(env, lookup, grants[k], Pending(slots)[k])
  }

  lemma ServableSnoc(env: Env, slots: seq<Slot>, sizes: seq<nat>)
    requires sizes != []
    ensures var n := |sizes| - 1;
      Servable(env, slots, sizes) <==>
        Servable(env, slots, sizes[..n]) && n < |Pending(slots)| && Meets(env, Pending(slots)[n], sizes[n])
  {
    var front := sizes[..|sizes| - 1];
    assert forall k :: 0 <= k < |front| ==> front[k] == sizes[k];
  }

  lemma AllServedSnoc(env: Env, lookup: map<string, RuntimeInfo>, slots: seq<Slot>, grants: seq<Grant>)
    requires grants != [] && |grants| <= |Pending(slots)|
    requires AllServed(env, lookup, slots, grants[..|grants| - 1])
    requires ServedFrom(env, lookup, grants[|grants| - 1], Pending(slots)[|grants| - 1])
    ensures AllServed(env, lookup, slots, grants)
  {
    forall k | 0 <= k < |grants| ensures ServedFrom(env, lookup, grants[k], Pending(slots)[k]) {
      if k < |grants| - 1 {
        assert grants[..|grants| - 1][k] == grants[k];
      }
    }
  }

  lemma {:induction false} ServeIff(env: Env, lookup: map<string, RuntimeInfo>, slots: seq<Slot>, sizes: seq<nat>)
    ensures var r := Serve(env, lookup, Progress([], slots), sizes);
      && (r.Ok? <==> Servable(env, slots, sizes))
      && (r.Ok? ==> |r.value.grants| == |sizes| && AllServed(env, lookup, slots, r.value.grants))
  {
    if sizes != [] {
      var n := |sizes| - 1;
      var front := sizes[..n];
      ServeIff(env, lookup, slots, front);
      ServableSnoc(env, slots, sizes);
      var before := Serve(env, lookup, Progress([], slots), front);
      if before.Ok? {
        var cut := ServeConsumes(env, lookup, slots, Progress([], slots), front, 0);
        ServeOneIff(env, lookup, slots, before.value, sizes[n], cut);
        var r := ServeOne(env, lookup, before.value, sizes[n]);
        if r.Ok? {
          AllServedSnoc(env, lookup, slots, r.value.grants);
        }
      }
    }
  }

  /** A call commits exactly when nothing outside fails and the first pending slots meet the
      request; then request `k` is answered from the `k`-th pending slot. */
  lemma CommitsIff(call: Call, slots: seq<Slot>)
    ensures Outcome(call, slots).Ok? <==>
      call.podFound && call.env.infos.Some? && call.decodes && call.patches && Servable(call.env, slots, call.sizes)
    ensures Outcome(call, slots).Ok? ==>
      var served := Outcome(call, slots).value;
      && |served.grants| == |call.sizes|
      && AllServed(call.env, Lookup(call.env.infos.value), slots, served.grants)
  {
    if call.env.infos.Some? {
      ServeIff(call.env, Lookup(call.env.infos.value), slots, call.sizes);
    }
  }

  /** The `k`-th response of a committed call tells the container of the `k`-th pending slot
      about the cards of that slot. */
  lemma CommittedTells(call: Call, slots: seq<Slot>, k: nat)
    requires Outcome(call, slots).Ok? && k < |call.sizes|
    ensures var served := Outcome(call, slots).value;
      && |Responses(served.grants)| == |call.sizes| <= |Pending(slots)|
      && var (index, slot) := Pending(slots)[k];
         Tells(call.env, Lookup(call.env.infos.value), CtrName(call.env, index), slot, Responses(served.grants)[k])
  {
    CommitsIff(call, slots);
    var (index, slot) := Pending(slots)[k];
    assert ServedFrom(call.env, Lookup(call.env.infos.value), Outcome(call, slots).value.grants[k], Pending(slots)[k]);
    ResponseTells(call.env, Lookup(call.env.infos.value), CtrName(call.env, index), slot);
  }

  /** Why request `n` cannot be met from the pending slots, when it cannot. */
  function Obstacle(env: Env, slots: seq<Slot>, n: nat, size: nat): Option<AllocError> {
    if n >= |Pending(slots)| then Some(NothingPending)
    else if |Pending(slots)[n].1| != size then Some(SizeMismatch)
    else if !AllKnown(env.devs, Pending(slots)[n].1) then Some(UnknownUUID)
    else None
  }

  lemma {:induction false} PendingNonEmpty(slots: seq<Slot>, c: nat)
    requires c <= |slots|
    ensures forall k :: 0 <= k < |PendingUpTo(slots, c)| ==> PendingUpTo(slots, c)[k].1 != []
  {
    if c > 0 {
      PendingNonEmpty(slots, c - 1);
    }
  }

  lemma ServeOneObstacle(env: Env, lookup: map<string, RuntimeInfo>, slots: seq<Slot>, p: Progress, size: nat, cut: nat)
    requires Consumed(slots, p, cut) && ServeOne(env, lookup, p, size).Err?
    ensures Obstacle(env, slots, |p.grants|, size) == Some(ServeOne(env, lookup, p, size).error)
  {
    NextPending(slots, cut);
    assert |Pairs(p.grants)| == |p.grants|;
  }

  /** A batch fails with the obstacle of its first request that cannot be met. */
  lemma {:induction false} ServeFailure(env: Env, lookup: map<string, RuntimeInfo>, slots: seq<Slot>, sizes: seq<nat>)
    returns (k: nat)
    requires Serve(env, lookup, Progress([], slots), sizes).Err?
    ensures k < |sizes| && Servable(env, slots, sizes[..k])
    ensures Obstacle(env, slots, k, sizes[k]) == Some(Serve(env, lookup, Progress([], slots), sizes).error)
  {
    var n := |sizes| - 1;
    var front := sizes[..n];
    var before := Serve(env, lookup, Progress([], slots), front);
    if before.Err? {
      k := ServeFailure(env, lookup, slots, front);
      assert front[..k] == sizes[..k];
    } else {
      k := n;
      ServeIff(env, lookup, slots, front);
      var cut := ServeConsumes(env, lookup, slots, Progress([], slots), front, 0);
      ServeOneObstacle(env, lookup, slots, before.value, sizes[n], cut);
    }
  }

  /** Each failure of a call has its own error: the ones outside in the order in which they are
      met, a failed patch only after all requests were served, and otherwise the obstacle of
      the first request that cannot be met. An empty slot is never served. */
  lemma FailsWith(call: Call, slots: seq<Slot>)
    requires Outcome(call, slots).Err?
    ensures match Outcome(call, slots).error
      case NoPendingPod => !call.podFound
      case NoRuntimeInfo => call.podFound && call.env.infos == None
      case NotDecodable => call.podFound && call.env.infos.Some? && !call.decodes
      case PatchFailed =>
        call.podFound && call.env.infos.Some? && call.decodes && !call.patches
        && Servable(call.env, slots, call.sizes)
      case EmptySlot => false
      case e =>
        && call.podFound && call.env.infos.Some? && call.decodes
        && exists k :: 0 <= k < |call.sizes| && Servable(call.env, slots, call.sizes[..k])
                       && Obstacle(call.env, slots, k, call.sizes[k]) == Some(e)
  {
    if call.podFound && call.env.infos.Some? && call.decodes {
      var lookup := Lookup(call.env.infos.value);
      if Serve(call.env, lookup, Progress([], slots), call.sizes).Err? {
        var k := ServeFailure(call.env, lookup, slots, call.sizes);
      } else {
        ServeIff(call.env, lookup, slots, call.sizes);
      }
    }
  }

  // ----- splitting a request list into several calls

  function Clean(env: Env, sizes: seq<nat>): Call { Call(env, sizes, true, true, true) }

  /** One call per part, all of which must succeed. */
  function RunParts(env: Env, slots: seq<Slot>, parts: seq<seq<nat>>): Result<Progress, AllocError> {
    if parts == [] then Ok(Progress([], slots))
    else
      match RunParts(env, slots, parts[..|parts| - 1])
      case Err(e) => Err(e)
      case Ok(p) =>
        match Outcome(Clean(env, parts[|parts| - 1]), p.slots)
        case Err(e) => Err(e)
        case Ok(q) => Ok(Join(p, q))
  }

  function Flatten(parts: seq<seq<nat>>): seq<nat> {
    if parts == [] then [] else Flatten(parts[..|parts| - 1]) + parts[|parts| - 1]
  }

  /** Any way of splitting a request list over calls gives the responses, the container
      names and the final annotation of the single call, or fails with the same error. */
  lemma {:induction false} SplittingIsHarmless(env: Env, slots: seq<Slot>, parts: seq<seq<nat>>)
    requires parts != []
    ensures RunParts(env, slots, parts) == Outcome(Clean(env, Flatten(parts)), slots)
  {
    var n := |parts| - 1;
    var front, last := parts[..n], parts[n];
    var start := Progress([], slots);
    assert [] + last == last;
    if n > 0 {
      SplittingIsHarmless(env, slots, front);
    }
    if env.infos.Some? {
      var lookup := Lookup(env.infos.value);
      if n == 0 {
        assert Flatten(parts) == last;
        ServeFrame(env, lookup, start, last);
      } else {
        var before := Serve(env, lookup, start, Flatten(front));
        if before.Ok? {
          ServeSplits(env, lookup, start, Flatten(front), last);
          ServeFrame(env, lookup, before.value, last);
        } else {
          var all := Flatten(parts);
          assert all[..|Flatten(front)|] == Flatten(front);
          ServeStops(env, lookup, start, all, |Flatten(front)|);
        }
      }
    }
  }
}
