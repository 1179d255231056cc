/** The publication protocol of one Start epoch: `watchAndRegister` and the ListAndWatch
    handlers of any number of streams as concurrent processes over the device cache, the
    unbuffered channel `healthCh` and the stop channel. Each step is one atomic action of one
    process; every interleaving is a run. */
module WatchProtocol {
  import opened Wrappers
  import opened Devices
  import opened Publication

  datatype Watcher =
    | AtTimer                  // blocked on the timer or the stop channel
    | Refreshing               // about to call UpdateDevice
    | Comparing                // about to compare fingerprints
    | Offering(fp: string)     // blocked on healthCh, the stop channel or the send timeout
    | Registering              // inside registerHAMi
    | WatcherDone

  datatype Place =
    | Reading                                         // about to call apiDevices
    | Sending(list: seq<ApiDevice>, version: nat)     // inside Send
    | Waiting                                         // blocked on healthCh or the stop channel
    | Closed

  /** One ListAndWatch call. `sends` are the versions passed to Send so far, `view` is the last
      list that reached kubelet over this stream and `shown` its version. A handler does not
      notice that its stream is gone. */
  datatype Handler = Handler(
    place: Place,
    connected: bool,
    view: Option<seq<ApiDevice>>,
    shown: Option<nat>,
    sends: seq<nat>)

  /** `versions` is every value the cache has held, the current one last. `handed` is the
      version fingerprinted for the last handoff (0 stands for Start) and `before` that for the
      handoff before it, `informed` are the handlers that took the last one or were opened since,
      `refused` the versions whose offer timed out. */
  datatype State = State(
    versions: seq<seq<Device>>,
    lastPublished: string,
    watcher: Watcher,
    handlers: seq<Handler>,
    stopped: bool,
    handed: nat,
    before: nat,
    informed: set<nat>,
    refused: set<nat>)

  datatype Step =
    | TimerFires
    | RefreshOk(devs: seq<Device>)
    | RefreshFails
    | Compare
    | Handoff(h: nat)
    | OfferTimesOut
    | RegisterEnds
    | WatcherStops
    | StreamOpens
    | StreamBreaks(h: nat)
    | HandlerReads(h: nat)
    | SendWorks(h: nat)
    | SendFails(h: nat)
    | HandlerStops(h: nat)
    | StopRequested

  predicate WellFormed(s: State) { s.versions != [] }

  function Cache(s: State): seq<Device>
    requires WellFormed(s)
  {
    s.versions[|s.versions| - 1]
  }

  /** What `Start` leaves behind: a fresh cache, already fingerprinted. */
  function Init(devs: seq<Device>): State {
    State([devs], Fingerprint(devs), AtTimer, [], false, 0, 0, {}, {})
  }

  predicate IsWaiting(s: State, h: nat) { h < |s.handlers| && s.handlers[h].place == Waiting }

  predicate IsSending(s: State, h: nat) { h < |s.handlers| && s.handlers[h].place.Sending? }

  predicate Enabled(s: State, step: Step) {
    match step
    case TimerFires => s.watcher == AtTimer
    case RefreshOk(_) => s.watcher == Refreshing
    case RefreshFails => s.watcher == Refreshing
    case Compare => s.watcher == Comparing
    case Handoff(h) => s.watcher.Offering? && IsWaiting(s, h)
    case OfferTimesOut => s.watcher.Offering?
    case RegisterEnds => s.watcher == Registering
    case WatcherStops => s.stopped && (s.watcher == AtTimer || s.watcher.Offering?)
    case StreamOpens => true
    case StreamBreaks(h) => h < |s.handlers| && s.handlers[h].connected
    case HandlerReads(h) => h < |s.handlers| && s.handlers[h].place == Reading
    case SendWorks(h) => IsSending(s, h) && s.handlers[h].connected
    case SendFails(h) => IsSending(s, h)
    case HandlerStops(h) => s.stopped && IsWaiting(s, h)
    case StopRequested => true
  }

  function Read(hd: Handler, versions: seq<seq<Device>>, vCount: int): Handler
    requires versions != []
  {
    hd.(place := Sending(ApiList(versions[|versions| - 1], vCount), |versions| - 1))
  }

  function Sent(hd: Handler, works: bool): Handler
    requires hd.place.Sending?
  {
    var arrived := if works then hd.(view := Some(hd.place.list), shown := Some(hd.place.version)) else hd;
    arrived.(sends := hd.sends + [hd.place.version], place := Waiting)
  }

  function Apply(s: State, step: Step, vCount: int): (s': State)
    requires WellFormed(s) && Enabled(s, step)
    ensures WellFormed(s')
  {
    match step
    case TimerFires => s.(watcher := Refreshing)
    case RefreshOk(devs) => s.(versions := s.versions + [devs], watcher := Comparing)
    case RefreshFails => s.(watcher := AtTimer)
    case Compare =>
      var fp := Fingerprint(Cache(s));
      s.(watcher := if fp != s.lastPublished then Offering(fp) else Registering)
    case Handoff(h) =>
      s.(lastPublished := s.watcher.fp, watcher := Registering, handed := |s.versions| - 1, before := s.handed,
         informed := {h}, handlers := s.handlers[h := s.handlers[h].(place := Reading)])
    case OfferTimesOut => s.(watcher := Registering, refused := s.refused + {|s.versions| - 1})
    case RegisterEnds => s.(watcher := AtTimer)
    case WatcherStops => s.(watcher := WatcherDone)
    case StreamOpens =>
      s.(handlers := s.handlers + [Handler(Reading, true, None, None, [])], informed := s.informed + {|s.handlers|})
    case StreamBreaks(h) => s.(handlers := s.handlers[h := s.handlers[h].(connected := false)])
    case HandlerReads(h) => s.(handlers := s.handlers[h := Read(s.handlers[h], s.versions, vCount)])
    case SendWorks(h) => s.(handlers := s.handlers[h := Sent(s.handlers[h], true)])
    case SendFails(h) => s.(handlers := s.handlers[h := Sent(s.handlers[h], false)])
    case HandlerStops(h) => s.(handlers := s.handlers[h := s.handlers[h].(place := Closed)])
    case StopRequested => s.(stopped := true)
  }

  /** The state after `steps`, or None when some step was not enabled. */
  function Run(s: State, steps: seq<Step>, vCount: int): (r: Option<State>)
    requires WellFormed(s)
    ensures r.Some? ==> WellFormed(r.value)
  {
    if steps == [] then Some(s)
    else
      var before := Run(s, steps[..|steps| - 1], vCount);
      var step := steps[|steps| - 1];
      if before.Some? && Enabled(before.value, step) then Some(Apply(before.value, step, vCount)) else None
  }

  // ----- the invariant

  /** The watcher has not yet dealt with the newest version. */
  predicate Unsettled(s: State) { s.watcher == Comparing || s.watcher.Offering? }

  function Settled(s: State): int { if Unsettled(s) then |s.versions| - 1 else |s.versions| }

  /** Of the versions dealt with since the last handoff exactly the refused ones have another
      fingerprint than the stored one; of those between the two last handoffs, the ones not
      refused have the fingerprint stored then, which is another one. */
  ghost predicate WatcherInv(s: State) {
    && WellFormed(s)
    && s.handed < |s.versions|
    && (Unsettled(s) ==> s.handed < |s.versions| - 1)
    && (s.watcher.Offering? ==> s.watcher.fp == Fingerprint(Cache(s)) && s.watcher.fp != s.lastPublished)
    && (forall i :: i in s.refused ==> i < Settled(s))
    && (forall i :: s.before <= i < s.handed && i !in s.refused ==> Fingerprint(s.versions[i]) != s.lastPublished)
    && (s.watcher != WatcherDone ==>
          forall i :: s.handed <= i < Settled(s) ==>
            (i in s.refused <==> Fingerprint(s.versions[i]) != s.lastPublished))
  }

  /** A list is always that of the version it was read from, and an informed handler works with
      versions no older than the last handoff. */
  ghost predicate HandlerInv(hd: Handler, versions: seq<seq<Device>>, oldest: nat, vCount: int) {
    && (forall i :: 0 <= i < |hd.sends| ==> hd.sends[i] < |versions|)
    && (hd.place.Sending? ==>
          (oldest <= hd.place.version < |versions|
           && hd.place.list == ApiList(versions[hd.place.version], vCount)))
    && (hd.place == Waiting ==> hd.sends != [] && oldest <= hd.sends[|hd.sends| - 1])
    && (hd.shown.Some? ==>
          (hd.shown.value in hd.sends && hd.shown.value < |versions|
           && hd.view == Some(ApiList(versions[hd.shown.value], vCount))))
  }

  function Oldest(s: State, h: nat): nat { if h in s.informed then s.handed else 0 }

  ghost predicate HandlersInv(s: State, vCount: int) {
    && (forall h :: h in s.informed ==> h < |s.handlers|)
    && forall h :: 0 <= h < |s.handlers| ==> HandlerInv(s.handlers[h], s.versions, Oldest(s, h), vCount)
  }

  lemma WatcherInvRefresh(s: State, devs: seq<Device>, vCount: int)
    requires WatcherInv(s) && Enabled(s, RefreshOk(devs))
    ensures WatcherInv(Apply(s, RefreshOk(devs), vCount))
  {
    assert forall i :: 0 <= i < |s.versions| ==> (s.versions + [devs])[i] == s.versions[i];
  }

  /** The fingerprint handed off differs from the one stored before. */
  lemma WatcherInvHandoff(s: State, h: nat, vCount: int)
    requires WatcherInv(s) && Enabled(s, Handoff(h))
    ensures WatcherInv(Apply(s, Handoff(h), vCount))
  {
  }

  lemma WatcherInvOffer(s: State, step: Step, vCount: int)
    requires WatcherInv(s) && Enabled(s, step) && (step == Compare || step == OfferTimesOut)
    ensures WatcherInv(Apply(s, step, vCount))
  {
  }

  /** Steps that touch nothing of the watcher's but its place. */
  lemma WatcherInvOther(s: State, t: State)
    requires WatcherInv(s)
    requires t.versions == s.versions && t.lastPublished == s.lastPublished && t.refused == s.refused
    requires t.handed == s.handed && t.before == s.before
    requires t.watcher == s.watcher || t.watcher == WatcherDone
      || (!Unsettled(s) && !Unsettled(t) && s.watcher != WatcherDone)
    ensures WatcherInv(t)
  {
  }

  lemma WatcherInvStep(s: State, step: Step, vCount: int)
    requires WatcherInv(s) && Enabled(s, step)
    ensures WatcherInv(Apply(s, step, vCount))
  {
    if step.RefreshOk? {
      WatcherInvRefresh(s, step.devs, vCount);
    } else if step.Handoff? {
      WatcherInvHandoff(s, step.h, vCount);
    } else if step == Compare || step == OfferTimesOut {
      WatcherInvOffer(s, step, vCount);
    } else {
      WatcherInvOther(s, Apply(s, step, vCount));
    }
  }

  /** Versions read earlier stay where they are. */
  lemma HandlerInvRefresh(hd: Handler, versions: seq<seq<Device>>, devs: seq<Device>, oldest: nat, vCount: int)
    requires HandlerInv(hd, versions, oldest, vCount)
    ensures HandlerInv(hd, versions + [devs], oldest, vCount)
  {
    assert forall i :: 0 <= i < |versions| ==> (versions + [devs])[i] == versions[i];
  }

  lemma HandlerInvSent(hd: Handler, works: bool, versions: seq<seq<Device>>, oldest: nat, vCount: int)
    requires hd.place.Sending? && HandlerInv(hd, versions, oldest, vCount)
    ensures HandlerInv(Sent(hd, works), versions, oldest, vCount)
  {
    var after := Sent(hd, works);
    assert after.sends[|hd.sends|] == hd.place.version;
    assert forall v :: v in hd.sends ==> v in after.sends;
  }

  /** Reading, sending, stopping and losing the stream. */
  predicate OwnStep(step: Step, h: nat) {
    || step == HandlerReads(h) || step == SendWorks(h) || step == SendFails(h)
    || step == HandlerStops(h) || step == StreamBreaks(h)
  }

  lemma HandlerInvOwn(s: State, step: Step, vCount: int, h: nat)
    requires WatcherInv(s) && Enabled(s, step) && OwnStep(step, h) && h < |s.handlers|
    requires HandlerInv(s.handlers[h], s.versions, Oldest(s, h), vCount)
    ensures HandlerInv(Apply(s, step, vCount).handlers[h], s.versions, Oldest(s, h), vCount)
  {
    if step.SendWorks? || step.SendFails? {
      HandlerInvSent(s.handlers[h], step.SendWorks?, s.versions, Oldest(s, h), vCount);
    }
  }

  /** A handoff makes everyone but its taker uninformed. */
  lemma HandlerInvHandoff(s: State, k: nat, vCount: int, h: nat)
    requires WatcherInv(s) && Enabled(s, Handoff(k)) && h < |s.handlers|
    requires HandlerInv(s.handlers[h], s.versions, Oldest(s, h), vCount)
    ensures var t := Apply(s, Handoff(k), vCount); HandlerInv(t.handlers[h], t.versions, Oldest(t, h), vCount)
  {
  }

  /** A step that is neither the handler's own, nor a handoff, nor a refresh does not touch it. */
  lemma HandlerUntouched(s: State, step: Step, vCount: int, h: nat)
    requires WellFormed(s) && Enabled(s, step) && h < |s.handlers|
    requires !OwnStep(step, h) && !step.Handoff? && !step.RefreshOk?
    ensures var t := Apply(s, step, vCount);
      h < |t.handlers| && t.handlers[h] == s.handlers[h] && t.versions == s.versions && Oldest(t, h) == Oldest(s, h)
  {
  }

  /** Every step keeps every handler's invariant. */
  lemma HandlerInvStep(s: State, step: Step, vCount: int, h: nat)
    requires WatcherInv(s) && Enabled(s, step) && h < |Apply(s, step, vCount).handlers|
    requires h < |s.handlers| ==> HandlerInv(s.handlers[h], s.versions, Oldest(s, h), vCount)
    ensures var t := Apply(s, step, vCount); HandlerInv(t.handlers[h], t.versions, Oldest(t, h), vCount)
  {
    if h == |s.handlers| {
      assert step == StreamOpens;
    } else if step.RefreshOk? {
      HandlerInvRefresh(s.handlers[h], s.versions, step.devs, Oldest(s, h), vCount);
    } else if step.Handoff? {
      HandlerInvHandoff(s, step.h, vCount, h);
    } else if OwnStep(step, h) {
      HandlerInvOwn(s, step, vCount, h);
    } else {
      HandlerUntouched(s, step, vCount, h);
    }
  }

  lemma HandlersInvStep(s: State, step: Step, vCount: int)
    requires WatcherInv(s) && HandlersInv(s, vCount) && Enabled(s, step)
    ensures HandlersInv(Apply(s, step, vCount), vCount)
  {
    var t := Apply(s, step, vCount);
    forall h | 0 <= h < |t.handlers| ensures HandlerInv(t.handlers[h], t.versions, Oldest(t, h), vCount) {
      HandlerInvStep(s, step, vCount, h);
    }
  }

  lemma {:induction false} RunInv(devs: seq<Device>, steps: seq<Step>, vCount: int)
    requires Run(Init(devs), steps, vCount).Some?
    ensures WatcherInv(Run(Init(devs), steps, vCount).value)
    ensures HandlersInv(Run(Init(devs), steps, vCount).value, vCount)
  {
    if steps != [] {
      var front, last := steps[..|steps| - 1], steps[|steps| - 1];
      RunInv(devs, front, vCount);
      var s := Run(Init(devs), front, vCount).value;
      WatcherInvStep(s, last, vCount);
      HandlersInvStep(s, last, vCount);
    }
  }

  // ----- when kubelet's list is that of the cache

  predicate CleanVersions(s: State) {
    forall i :: 0 <= i < |s.versions| ==> MarkerFreeList(s.versions[i])
  }

  /** The last list that reached kubelet over stream `h` is no older than the last handoff. */
  predicate UpToDate(s: State, h: nat) {
    h < |s.handlers| && s.handlers[h].shown.Some? && s.handlers[h].shown.value >= s.handed
  }

  /** The last list passed to Send has reached kubelet. */
  predicate LastArrived(hd: Handler) { hd.sends != [] && hd.shown == Some(hd.sends[|hd.sends| - 1]) }

  /** That is so for every waiting handler that took the last handoff, or was opened since,
      and whose last Send worked. */
  lemma InformedIsUpToDate(devs: seq<Device>, steps: seq<Step>, vCount: int, h: nat)
    requires Run(Init(devs), steps, vCount).Some?
    requires var s := Run(Init(devs), steps, vCount).value;
      IsWaiting(s, h) && h in s.informed && LastArrived(s.handlers[h])
    ensures UpToDate(Run(Init(devs), steps, vCount).value, h)
  {
    RunInv(devs, steps, vCount);
    InformedAt(Run(Init(devs), steps, vCount).value, h, vCount);
  }

  lemma InformedAt(s: State, h: nat, vCount: int)
    requires HandlersInv(s, vCount) && IsWaiting(s, h) && h in s.informed && LastArrived(s.handlers[h])
    ensures UpToDate(s, h)
  {
    assert HandlerInv(s.handlers[h], s.versions, s.handed, vCount);
  }

  /** Whether kubelet's list is the cache's can be told from the fingerprint of its version. */
  lemma ShownAgrees(s: State, h: nat, vCount: int)
    requires WellFormed(s) && HandlersInv(s, vCount) && CleanVersions(s)
    requires h < |s.handlers| && s.handlers[h].shown.Some?
    ensures var v, view := s.handlers[h].shown.value, s.handlers[h].view;
      && v < |s.versions|
      && (Fingerprint(s.versions[v]) == Fingerprint(Cache(s)) ==> view == Some(ApiList(Cache(s), vCount)))
      && (vCount >= 1 && view == Some(ApiList(Cache(s), vCount)) ==>
            Fingerprint(s.versions[v]) == Fingerprint(Cache(s)))
  {
    assert HandlerInv(s.handlers[h], s.versions, Oldest(s, h), vCount);
    FingerprintDecides(s.versions[s.handlers[h].shown.value], Cache(s), vCount);
  }

  lemma AgreementAt(s: State, h: nat, vCount: int)
    requires WatcherInv(s) && HandlersInv(s, vCount) && s.watcher == AtTimer
    ensures s.lastPublished == Fingerprint(Cache(s)) <==> |s.versions| - 1 !in s.refused
    ensures UpToDate(s, h) && CleanVersions(s) && vCount >= 1 && |s.versions| - 1 !in s.refused ==>
      (s.handlers[h].view == Some(ApiList(Cache(s), vCount)) <==> s.handlers[h].shown.value !in s.refused)
  {
    if UpToDate(s, h) && CleanVersions(s) {
      ShownAgrees(s, h, vCount);
    }
  }

  /** Agreement, exactly. In every reachable state with the watcher at its timer the stored
      fingerprint is that of the cache unless the offer of the current version timed out. If it
      is, so that no resend is due, kubelet's list from an up-to-date handler is the one the
      cache would publish exactly when it was not read from a version whose offer timed out. */
  lemma AgreementIff(devs: seq<Device>, steps: seq<Step>, vCount: int, h: nat)
    requires Run(Init(devs), steps, vCount).Some?
    ensures var s := Run(Init(devs), steps, vCount).value;
      s.watcher == AtTimer ==>
        && (s.lastPublished == Fingerprint(Cache(s)) <==> |s.versions| - 1 !in s.refused)
        && (UpToDate(s, h) && CleanVersions(s) && vCount >= 1 && |s.versions| - 1 !in s.refused ==>
              (s.handlers[h].view == Some(ApiList(Cache(s), vCount)) <==> s.handlers[h].shown.value !in s.refused))
  {
    RunInv(devs, steps, vCount);
    var s := Run(Init(devs), steps, vCount).value;
    if s.watcher == AtTimer {
      AgreementAt(s, h, vCount);
    }
  }

  /** No offer has timed out since the last handoff, or since Start. */
  predicate NoneRefused(s: State) { forall i :: i in s.refused ==> i < s.handed }

  /** Agreement for any virtual count: without a timeout since the last handoff kubelet holds the
      list of the cache, and the stored fingerprint is that of the cache. */
  lemma Agreement(devs: seq<Device>, steps: seq<Step>, vCount: int, h: nat)
    requires Run(Init(devs), steps, vCount).Some?
    ensures var s := Run(Init(devs), steps, vCount).value;
      s.watcher == AtTimer && NoneRefused(s) ==>
        && s.lastPublished == Fingerprint(Cache(s))
        && (UpToDate(s, h) && CleanVersions(s) ==> s.handlers[h].view == Some(ApiList(Cache(s), vCount)))
  {
    RunInv(devs, steps, vCount);
    var s := Run(Init(devs), steps, vCount).value;
    if UpToDate(s, h) && CleanVersions(s) {
      ShownAgrees(s, h, vCount);
    }
  }

  lemma MissedHandoffAt(s: State, h: nat, vCount: int)
    requires WatcherInv(s) && HandlersInv(s, vCount) && s.watcher == AtTimer
    requires |s.versions| - 1 !in s.refused && CleanVersions(s) && vCount >= 1
    requires h < |s.handlers| && s.handlers[h].shown.Some?
    requires s.handlers[h].shown.value >= s.before && s.handlers[h].shown.value !in s.refused
    ensures s.handlers[h].view == Some(ApiList(Cache(s), vCount)) <==> UpToDate(s, h)
  {
    ShownAgrees(s, h, vCount);
  }

  /** A handler that missed the last handoff, or whose Send after it failed, leaves kubelet with
      a wrong list: of the lists read since the handoff before it and not from a version whose
      offer timed out, exactly those at least as new as the last handoff are the cache's. */
  lemma MissedHandoffIff(devs: seq<Device>, steps: seq<Step>, vCount: int, h: nat)
    requires Run(Init(devs), steps, vCount).Some?
    ensures var s := Run(Init(devs), steps, vCount).value;
      s.watcher == AtTimer && |s.versions| - 1 !in s.refused && CleanVersions(s) && vCount >= 1
      && h < |s.handlers| && s.handlers[h].shown.Some?
      && s.handlers[h].shown.value >= s.before && s.handlers[h].shown.value !in s.refused ==>
        (s.handlers[h].view == Some(ApiList(Cache(s), vCount)) <==> UpToDate(s, h))
  {
    RunInv(devs, steps, vCount);
    var s := Run(Init(devs), steps, vCount).value;
    if s.watcher == AtTimer && |s.versions| - 1 !in s.refused && CleanVersions(s) && vCount >= 1
       && h < |s.handlers| && s.handlers[h].shown.Some?
       && s.handlers[h].shown.value >= s.before && s.handlers[h].shown.value !in s.refused {
      MissedHandoffAt(s, h, vCount);
    }
  }

  // ----- every handoff is answered

  /** Send number `n` of handler `h` is, or is about to be, of a list at least as new as
      version `oldest`. */
  predicate Answering(s: State, h: nat, n: nat, oldest: nat) {
    && h < |s.handlers|
    && var hd := s.handlers[h];
       || (|hd.sends| > n && hd.sends[n] >= oldest)
       || (|hd.sends| == n && oldest < |s.versions|
           && (hd.place == Reading || (hd.place.Sending? && hd.place.version >= oldest)))
  }

  lemma AnsweringStep(s: State, step: Step, vCount: int, h: nat, n: nat, oldest: nat)
    requires WellFormed(s) && Answering(s, h, n, oldest) && Enabled(s, step)
    ensures Answering(Apply(s, step, vCount), h, n, oldest)
  {
  }

  lemma {:induction false} AnsweringKept(s: State, steps: seq<Step>, vCount: int, h: nat, n: nat, oldest: nat)
    requires WellFormed(s) && Answering(s, h, n, oldest) && Run(s, steps, vCount).Some?
    ensures Answering(Run(s, steps, vCount).value, h, n, oldest)
  {
    if steps != [] {
      var front := steps[..|steps| - 1];
      AnsweringKept(s, front, vCount, h, n, oldest);
      AnsweringStep(Run(s, front, vCount).value, steps[|steps| - 1], vCount, h, n, oldest);
    }
  }

  /** Whatever happens after a handoff, the handler that took it is not back at its channel
      before it has passed to Send a list read from a cache at least as new as the one the
      watcher fingerprinted. */
  lemma HandoffAnswered(s: State, h: nat, steps: seq<Step>, vCount: int)
    requires WellFormed(s) && Enabled(s, Handoff(h))
    requires Run(Apply(s, Handoff(h), vCount), steps, vCount).Some?
    ensures var t := Run(Apply(s, Handoff(h), vCount), steps, vCount).value;
      && h < |t.handlers|
      && var before, after := s.handlers[h].sends, t.handlers[h].sends;
         t.handlers[h].place == Waiting || t.handlers[h].place == Closed ==>
           |after| > |before| && after[|before|] >= |s.versions| - 1
  {
    AnsweringKept(Apply(s, Handoff(h), vCount), steps, vCount, h, |s.handlers[h].sends|, |s.versions| - 1);
  }

  // ----- when nothing changes, nothing is sent

  predicate Resting(s: State, h: nat, fp: string) {
    && WellFormed(s)
    && s.lastPublished == fp
    && Fingerprint(Cache(s)) == fp
    && !s.watcher.Offering?
    && h < |s.handlers|
    && (s.handlers[h].place == Waiting || s.handlers[h].place == Closed)
  }

  predicate KeepsFingerprint(steps: seq<Step>, fp: string) {
    forall i :: 0 <= i < |steps| && steps[i].RefreshOk? ==> Fingerprint(steps[i].devs) == fp
  }

  predicate SameShown(hd: Handler, now: Handler) { now.view == hd.view && now.sends == hd.sends }

  lemma RestingStep(s: State, step: Step, vCount: int, h: nat, fp: string)
    requires Resting(s, h, fp) && Enabled(s, step)
    requires step.RefreshOk? ==> Fingerprint(step.devs) == fp
    ensures var t := Apply(s, step, vCount); Resting(t, h, fp) && SameShown(s.handlers[h], t.handlers[h])
  {
  }

  /** While every refresh yields the published fingerprint, a handler at rest sends nothing: a
      steady device set is not resent, and a wrong view is not repaired either. */
  lemma {:induction false} SteadyState(s: State, steps: seq<Step>, vCount: int, h: nat, fp: string)
    requires Resting(s, h, fp) && KeepsFingerprint(steps, fp) && Run(s, steps, vCount).Some?
    ensures var t := Run(s, steps, vCount).value; Resting(t, h, fp) && SameShown(s.handlers[h], t.handlers[h])
  {
    if steps != [] {
      var front := steps[..|steps| - 1];
      assert forall i :: 0 <= i < |front| ==> front[i] == steps[i];
      SteadyState(s, front, vCount, h, fp);
      RestingStep(Run(s, front, vCount).value, steps[|steps| - 1], vCount, h, fp);
    }
  }

  // ----- the loops end when stopped, and only then

  ghost predicate EndedWhenStopped(s: State) {
    && (s.watcher == WatcherDone ==> s.stopped)
    && forall h :: 0 <= h < |s.handlers| ==> s.handlers[h].place == Closed ==> s.stopped
  }

  lemma EndedWhenStoppedStep(s: State, step: Step, vCount: int)
    requires WellFormed(s) && EndedWhenStopped(s) && Enabled(s, step)
    ensures EndedWhenStopped(Apply(s, step, vCount))
  {
  }

  /** In every reachable state the watch loop and the handlers have ended only if stopped: no
      query error, timeout, failed Send or lost stream ends any of them. */
  lemma {:induction false} EndsOnlyWhenStopped(devs: seq<Device>, steps: seq<Step>, vCount: int)
    requires Run(Init(devs), steps, vCount).Some?
    ensures EndedWhenStopped(Run(Init(devs), steps, vCount).value)
  {
    if steps != [] {
      var front := steps[..|steps| - 1];
      EndsOnlyWhenStopped(devs, front, vCount);
      EndedWhenStoppedStep(Run(Init(devs), front, vCount).value, steps[|steps| - 1], vCount);
    }
  }

  lemma RunTwo(s: State, first: Step, second: Step, vCount: int)
    requires WellFormed(s) && Enabled(s, first) && Enabled(Apply(s, first, vCount), second)
    ensures Run(s, [first, second], vCount) == Some(Apply(Apply(s, first, vCount), second, vCount))
  {
    var steps := [first];
    var more := steps + [second];
    assert steps[..0] == [] && more[..1] == steps;
    assert Run(s, [], vCount) == Some(s);
    assert Run(s, steps, vCount) == Some(Apply(s, first, vCount));
    assert more == [first, second];
  }

  /** A round whose refresh fails is as if it had not been: the watcher is back at its timer and
      nothing is compared, offered or registered. */
  lemma FailedRefreshIsHarmless(s: State, vCount: int)
    requires WellFormed(s) && s.watcher == AtTimer
    ensures Run(s, [TimerFires, RefreshFails], vCount) == Some(s)
  {
    RunTwo(s, TimerFires, RefreshFails, vCount);
  }

  /** Once stopped the watch loop can end, wherever it is. */
  lemma WatcherCanEnd(s: State, vCount: int) returns (steps: seq<Step>)
    requires WellFormed(s) && s.stopped
    ensures Run(s, steps, vCount).Some? && Run(s, steps, vCount).value.watcher == WatcherDone
  {
    var next := s;
    steps := [];
    if next.watcher == Comparing {
      steps, next := Extend(s, steps, next, Compare, vCount);
    }
    if next.watcher == Refreshing {
      steps, next := Extend(s, steps, next, RefreshFails, vCount);
    } else if next.watcher == Registering {
      steps, next := Extend(s, steps, next, RegisterEnds, vCount);
    }
    if next.watcher != WatcherDone {
      steps, next := Extend(s, steps, next, WatcherStops, vCount);
    }
  }

  /** And so can every handler. */
  lemma HandlerCanEnd(s: State, h: nat, vCount: int) returns (steps: seq<Step>)
    requires WellFormed(s) && s.stopped && h < |s.handlers|
    ensures Run(s, steps, vCount).Some? && h < |Run(s, steps, vCount).value.handlers|
    ensures Run(s, steps, vCount).value.handlers[h].place == Closed
  {
    var next := s;
    steps := [];
    if next.handlers[h].place == Reading {
      steps, next := Extend(s, steps, next, HandlerReads(h), vCount);
    }
    if next.handlers[h].place.Sending? {
      steps, next := Extend(s, steps, next, SendFails(h), vCount);
    }
    if next.handlers[h].place == Waiting {
      steps, next := Extend(s, steps, next, HandlerStops(h), vCount);
    }
  }

  // ----- each condition of the agreement is needed

  lemma Extend(s: State, steps: seq<Step>, cur: State, step: Step, vCount: int)
    returns (more: seq<Step>, next: State)
    requires WellFormed(s) && Run(s, steps, vCount) == Some(cur) && Enabled(cur, step)
    ensures next == Apply(cur, step, vCount)
    ensures more == steps + [step] && Run(s, more, vCount) == Some(next)
  {
    more := steps + [step];
    assert more[..|steps|] == steps;
    next := Apply(cur, step, vCount);
  }

  /** One watcher round whose refresh yields the published fingerprint. */
  lemma SilentRound(s: State, steps: seq<Step>, cur: State, devs: seq<Device>, vCount: int)
    returns (more: seq<Step>, next: State)
    requires WellFormed(s) && Run(s, steps, vCount) == Some(cur)
    requires cur.watcher == AtTimer && cur.lastPublished == Fingerprint(devs)
    ensures Run(s, more, vCount) == Some(next) && next == cur.(versions := cur.versions + [devs])
  {
    more, next := Extend(s, steps, cur, TimerFires, vCount);
    more, next := Extend(s, more, next, RefreshOk(devs), vCount);
    more, next := Extend(s, more, next, Compare, vCount);
    more, next := Extend(s, more, next, RegisterEnds, vCount);
  }

  /** The part of a round up to the offer of a changed device set. */
  lemma OfferRound(s: State, steps: seq<Step>, cur: State, devs: seq<Device>, vCount: int)
    returns (more: seq<Step>, next: State)
    requires WellFormed(s) && Run(s, steps, vCount) == Some(cur)
    requires cur.watcher == AtTimer && cur.lastPublished != Fingerprint(devs)
    ensures Run(s, more, vCount) == Some(next)
    ensures next == cur.(versions := cur.versions + [devs], watcher := Offering(Fingerprint(devs)))
  {
    more, next := Extend(s, steps, cur, TimerFires, vCount);
    more, next := Extend(s, more, next, RefreshOk(devs), vCount);
    more, next := Extend(s, more, next, Compare, vCount);
  }

  /** A round whose offer nobody takes. */
  lemma LostRound(s: State, steps: seq<Step>, cur: State, devs: seq<Device>, vCount: int)
    returns (more: seq<Step>, next: State)
    requires WellFormed(s) && Run(s, steps, vCount) == Some(cur)
    requires cur.watcher == AtTimer && cur.lastPublished != Fingerprint(devs)
    ensures Run(s, more, vCount) == Some(next)
    ensures next == cur.(versions := cur.versions + [devs], refused := cur.refused + {|cur.versions|})
  {
    more, next := OfferRound(s, steps, cur, devs, vCount);
    more, next := Extend(s, more, next, OfferTimesOut, vCount);
    more, next := Extend(s, more, next, RegisterEnds, vCount);
  }

  /** A round whose offer handler `h` takes. */
  lemma TakenRound(s: State, steps: seq<Step>, cur: State, devs: seq<Device>, h: nat, vCount: int)
    returns (more: seq<Step>, next: State)
    requires WellFormed(s) && Run(s, steps, vCount) == Some(cur)
    requires cur.watcher == AtTimer && IsWaiting(cur, h) && cur.lastPublished != Fingerprint(devs)
    ensures Run(s, more, vCount) == Some(next)
    ensures next == cur.(versions := cur.versions + [devs], lastPublished := Fingerprint(devs),
                         handed := |cur.versions|, before := cur.handed, informed := {h},
                         handlers := cur.handlers[h := cur.handlers[h].(place := Reading)])
  {
    more, next := OfferRound(s, steps, cur, devs, vCount);
    more, next := Extend(s, more, next, Handoff(h), vCount);
    more, next := Extend(s, more, next, RegisterEnds, vCount);
  }

  /** Handler `h` reads the cache and passes the list to Send. */
  lemma SendRound(s: State, steps: seq<Step>, cur: State, h: nat, works: bool, vCount: int)
    returns (more: seq<Step>, next: State)
    requires WellFormed(s) && Run(s, steps, vCount) == Some(cur)
    requires h < |cur.handlers| && cur.handlers[h].place == Reading && (works ==> cur.handlers[h].connected)
    ensures Run(s, more, vCount) == Some(next)
    ensures next == cur.(handlers := cur.handlers[h := Sent(Read(cur.handlers[h], cur.versions, vCount), works)])
  {
    more, next := Extend(s, steps, cur, HandlerReads(h), vCount);
    if works {
      more, next := Extend(s, more, next, SendWorks(h), vCount);
    } else {
      more, next := Extend(s, more, next, SendFails(h), vCount);
    }
  }

  /** A stream opens and is shown the cache. */
  lemma OpenRound(s: State, steps: seq<Step>, cur: State, vCount: int)
    returns (more: seq<Step>, next: State)
    requires WellFormed(s) && Run(s, steps, vCount) == Some(cur)
    ensures WellFormed(cur) && Run(s, more, vCount) == Some(next)
    ensures next == cur.(handlers := cur.handlers + [Shown(cur.versions, vCount)],
                         informed := cur.informed + {|cur.handlers|})
  {
    more, next := Extend(s, steps, cur, StreamOpens, vCount);
    var begun := next.handlers[|cur.handlers|];
    more, next := SendRound(s, more, next, |cur.handlers|, true, vCount);
    assert Sent(Read(begun, cur.versions, vCount), true) == Shown(cur.versions, vCount);
  }

  /** A handler whose first Send worked. */
  function Shown(versions: seq<seq<Device>>, vCount: int): Handler
    requires versions != []
  {
    var n := |versions| - 1;
    Handler(Waiting, true, Some(ApiList(versions[n], vCount)), Some(n), [n])
  }

  function One(health: bool): seq<Device> { [Device("u", 0, 0, 0, 0, 0, 0, health)] }

  lemma OneDiffers()
    ensures Fingerprint(One(true)) != Fingerprint(One(false))
    ensures ApiList(One(true), 1) != ApiList(One(false), 1)
    ensures MarkerFreeList(One(true)) && MarkerFreeList(One(false))
  {
    FingerprintOne(One(true)[0]);
    FingerprintOne(One(false)[0]);
    assert Fingerprint(One(true)) == "u=1;" && Fingerprint(One(false)) == "u=0;";
    ApiListEqualIff(One(true), One(false), 1);
  }

  /** The watcher and the handler of the connected stream `h` are at rest with nothing due to
      be sent, and kubelet's list is not the cache's. */
  ghost predicate Stale(s: State, h: nat, vCount: int) {
    && s.watcher == AtTimer && IsWaiting(s, h) && s.handlers[h].connected && CleanVersions(s)
    && Resting(s, h, s.lastPublished)
    && s.handlers[h].view.Some? && s.handlers[h].view != Some(ApiList(Cache(s), vCount))
  }

  /** An offer times out with B in the cache, a late stream is opened and shown B, then the
      cache returns to the A published at Start: the fingerprints match and kubelet is left
      with B, for as long as the device set stays A (`SteadyState`). */
  lemma LateStreamStaysStale() returns (steps: seq<Step>)
    ensures Run(Init(One(true)), steps, 1).Some?
    ensures var s := Run(Init(One(true)), steps, 1).value; Stale(s, 0, 1) && UpToDate(s, 0)
  {
    OneDiffers();
    var start := Init(One(true));
    var s: State;
    steps, s := LostRound(start, [], start, One(false), 1);
    steps, s := OpenRound(start, steps, s, 1);
    steps, s := SilentRound(start, steps, s, One(true), 1);
    assert s.versions == [One(true), One(false), One(true)];
  }

  /** The handler ignores the error of Send, so a failed Send after a handoff leaves kubelet
      with the old list although no offer ever timed out. */
  lemma LostSendStaysStale() returns (steps: seq<Step>)
    ensures Run(Init(One(true)), steps, 1).Some?
    ensures var s := Run(Init(One(true)), steps, 1).value; Stale(s, 0, 1) && s.refused == {} && 0 in s.informed
  {
    OneDiffers();
    var start := Init(One(true));
    var s: State;
    steps, s := OpenRound(start, [], start, 1);
    steps, s := TakenRound(start, steps, s, One(false), 0, 1);
    steps, s := SendRound(start, steps, s, 0, false, 1);
    assert s.versions == [One(true), One(false)];
  }

  /** The first stream breaks and a second one opens; both handlers wait. */
  lemma BrokenStreamRun() returns (steps: seq<Step>, s: State)
    ensures Run(Init(One(true)), steps, 1) == Some(s)
    ensures s.versions == [One(true)] && s.lastPublished == Fingerprint(One(true)) && s.watcher == AtTimer
    ensures s.handlers == [Shown(s.versions, 1).(connected := false), Shown(s.versions, 1)] && s.refused == {}
  {
    var start := Init(One(true));
    steps, s := OpenRound(start, [], start, 1);
    steps, s := Extend(start, steps, s, StreamBreaks(0), 1);
    steps, s := OpenRound(start, steps, s, 1);
  }

  /** The handler of a broken stream still waits at the channel and can take the handoff meant
      for the stream opened after it, which is then left with the old list although no offer
      timed out and none of its own Sends failed. */
  lemma BrokenStreamTakesHandoff() returns (steps: seq<Step>)
    ensures Run(Init(One(true)), steps, 1).Some?
    ensures var s := Run(Init(One(true)), steps, 1).value;
      && |s.handlers| == 2 && !s.handlers[0].connected
      && Stale(s, 1, 1) && s.refused == {} && LastArrived(s.handlers[1])
  {
    OneDiffers();
    var start := Init(One(true));
    var s: State;
    steps, s := BrokenStreamRun();
    steps, s := TakenRound(start, steps, s, One(false), 0, 1);
    steps, s := SendRound(start, steps, s, 0, false, 1);
    assert s.versions == [One(true), One(false)];
  }
}
