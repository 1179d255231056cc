/** Start, Stop and the restart loop that drives them, with the goroutines tracked by the
    WaitGroup as concurrent processes. A goroutine does not capture its stop channel: every
    select reads the server's current one. */
module Lifecycle {
  import opened Wrappers

  datatype Kind = ServeLoop | IdleCleanup | Watcher

  /** Running, in a select on a stop channel, about to call Serve, or inside Serve of a gRPC
      server; the last two are for the serve loop only. */
  datatype Mode = Running | Blocked(channel: nat) | Armed | Serving(server: nat)

  /** `epoch` is the channel that was current when the goroutine was started, `saw` and
      `served` the stop channels and gRPC servers it has read since. */
  datatype Goroutine = Goroutine(kind: Kind, epoch: nat, mode: Mode, saw: set<nat>, served: set<nat>)

  /** Where the calling goroutine continues after Stop. */
  datatype After = ToFresh | ToCleanup | ToDone

  datatype Pc =
    | Fresh                    // label restart, first time
    | Restarting               // label restart, later
    | StopClose(k: After)
    | StopServer(k: After)
    | StopWait(k: After)       // wg.Wait
    | Cleanup
    | Prepare
    | MakeChannel
    | MakeServer
    | Update
    | Share
    | Listen
    | Dial
    | RegisterKubelet
    | SpawnCleanup
    | SpawnWatcher
    | Watching                 // the event loop
    | Done
    | Failed                   // Start returned an error; the process exits

  /** Channels are numbered in the order of their creation, the constructor's being 0.
      `closes` logs every close, `gone` every tracked goroutine that has returned. */
  datatype State = State(
    pc: Pc,
    stopCh: nat,
    nextChannel: nat,
    closed: set<nat>,
    closes: seq<nat>,
    server: Option<nat>,
    stoppedServers: set<nat>,
    live: map<nat, Goroutine>,
    nextID: nat,
    gone: seq<Goroutine>)

  datatype Step =
    | Proceed                  // the next action of the caller, without error
    | Fail                     // the current action of Start returns an error
    | RestartEvent             // kubelet socket created, or SIGHUP
    | ExitEvent                // any other signal
    | ExtraStop                // a Stop before the first Start, or one more after the last
    | EnterSelect(g: nat)      // the goroutine reads ps.stopCh and waits
    | OtherEvent(g: nat)       // a timer, a handoff, the default branch of the serve loop
    | StopSeen(g: nat)         // the channel it waits on is closed
    | ServeStarts(g: nat)      // the serve loop reads ps.grpcServer and calls Serve
    | ServeRefused(g: nat)     // the same, but the server is stopped: an error at once
    | ServeEnds(g: nat)        // Serve returned because its server was stopped
    | ServeCrashes(g: nat)     // Serve returned with an error; the loop goes on

  function Init(): State {
    State(Fresh, 0, 1, {}, [], None, {}, map[], 0, [])
  }

  predicate Starting(pc: Pc) {
    pc in {Prepare, Update, Share, Listen, Dial, RegisterKubelet}
  }

  predicate Enabled(s: State, step: Step) {
    match step
    case Proceed => s.pc !in {Watching, Done, Failed} && (s.pc.StopWait? ==> s.live == map[])
    case Fail => Starting(s.pc)
    case RestartEvent => s.pc == Watching
    case ExitEvent => s.pc == Watching
    case ExtraStop => s.pc == Fresh || s.pc == Done
    case EnterSelect(g) => g in s.live && s.live[g].mode == Running
    case OtherEvent(g) =>
      g in s.live && s.live[g].mode.Blocked? && (s.live[g].kind == ServeLoop ==> s.live[g].mode.channel !in s.closed)
    case StopSeen(g) => g in s.live && s.live[g].mode.Blocked? && s.live[g].mode.channel in s.closed
    case ServeStarts(g) =>
      g in s.live && s.live[g].mode.Armed? && s.server.Some? && s.server.value !in s.stoppedServers
    case ServeRefused(g) =>
      g in s.live && s.live[g].mode.Armed? && s.server.Some? && s.server.value in s.stoppedServers
    case ServeEnds(g) => g in s.live && s.live[g].mode.Serving? && s.live[g].mode.server in s.stoppedServers
    case ServeCrashes(g) => g in s.live && s.live[g].mode.Serving?
  }

  function Target(k: After): Pc {
    match k case ToFresh => Fresh case ToCleanup => Cleanup case ToDone => Done
  }

  /** A new tracked goroutine, after which the caller goes on to `pc`. */
  function Spawn(s: State, kind: Kind, pc: Pc): State {
    s.(live := s.live[s.nextID := Goroutine(kind, s.stopCh, Running, {}, {})], nextID := s.nextID + 1, pc := pc)
  }

  function Return(s: State, g: nat): State
    requires g in s.live
  {
    s.(gone := s.gone + [s.live[g]], live := s.live - {g})
  }

  /** The caller's next action. `periodic` is the flag for the idle cleanup goroutine. */
  function Advance(s: State, periodic: bool): State
    requires Enabled(s, Proceed)
  {
    match s.pc
    case Fresh => s.(pc := Cleanup)
    case Restarting => s.(pc := StopClose(ToCleanup))
    case StopClose(k) =>
      if s.stopCh in s.closed then s.(pc := StopServer(k))
      else s.(closed := s.closed + {s.stopCh}, closes := s.closes + [s.stopCh], pc := StopServer(k))
    case StopServer(k) =>
      s.(stoppedServers := if s.server.Some? then s.stoppedServers + {s.server.value} else s.stoppedServers,
         pc := StopWait(k))
    case StopWait(k) => s.(pc := Target(k))
    case Cleanup => s.(pc := Prepare)
    case Prepare => s.(pc := MakeChannel)
    case MakeChannel => s.(stopCh := s.nextChannel, nextChannel := s.nextChannel + 1, pc := MakeServer)
    case MakeServer => s.(server := Some(s.stopCh), pc := Update)
    case Update => s.(pc := Share)
    case Share => s.(pc := Listen)
    case Listen => Spawn(s, ServeLoop, Dial)
    case Dial => s.(pc := RegisterKubelet)
    case RegisterKubelet => s.(pc := SpawnCleanup)
    case SpawnCleanup => if periodic then Spawn(s, IdleCleanup, SpawnWatcher) else s.(pc := SpawnWatcher)
    case SpawnWatcher => Spawn(s, Watcher, Watching)
    case Watching | Done | Failed => s
  }

  function Apply(s: State, step: Step, periodic: bool): State
    requires Enabled(s, step)
  {
    match step
    case Proceed => Advance(s, periodic)
    case Fail => s.(pc := Failed)
    case RestartEvent => s.(pc := Restarting)
    case ExitEvent => s.(pc := StopClose(ToDone))
    case ExtraStop => s.(pc := StopClose(if s.pc == Fresh then ToFresh else ToDone))
    case EnterSelect(g) =>
      s.(live := s.live[g := s.live[g].(mode := Blocked(s.stopCh), saw := s.live[g].saw + {s.stopCh})])
    case OtherEvent(g) =>
      s.(live := s.live[g := s.live[g].(mode := if s.live[g].kind == ServeLoop then Armed else Running)])
    case StopSeen(g) => Return(s, g)
    case ServeStarts(g) =>
      var srv := s.server.value;
      s.(live := s.live[g := s.live[g].(mode := Serving(srv), served := s.live[g].served + {srv})])
    case ServeRefused(g) =>
      s.(live := s.live[g := s.live[g].(mode := Running, served := s.live[g].served + {s.server.value})])
    case ServeEnds(g) => Return(s, g)
    case ServeCrashes(g) => s.(live := s.live[g := s.live[g].(mode := Running)])
  }

  function Run(s: State, steps: seq<Step>, periodic: bool): Option<State> {
    if steps == [] then Some(s)
    else
      var before := Run(s, steps[..|steps| - 1], periodic);
      var step := steps[|steps| - 1];
      if before.Some? && Enabled(before.value, step) then Some(Apply(before.value, step, periodic)) else None
  }

  // ----- the invariant

  /** From the return of Stop to the start of the serve loop nothing tracked is running. */
  predicate Quiescent(pc: Pc) {
    pc in {Fresh, Cleanup, Prepare, MakeChannel, MakeServer, Update, Share, Listen, Done}
  }

  /** The current channel has been made by a Start that no Stop has answered yet. */
  predicate Open(pc: Pc) {
    pc in {MakeServer, Update, Share, Listen, Dial, RegisterKubelet, SpawnCleanup, SpawnWatcher, Watching, Restarting}
  }

  predicate Loyal(g: Goroutine) { g.saw <= {g.epoch} && g.served <= {g.epoch} }

  ghost predicate ChannelInv(s: State) {
    && s.stopCh < s.nextChannel
    && (forall c :: c in s.closed ==> c < s.nextChannel)
    && (forall c :: c in s.closes <==> c in s.closed)
    && (forall i, j :: 0 <= i < j < |s.closes| ==> s.closes[i] != s.closes[j])
    && (forall v :: v in s.stoppedServers ==> v < s.nextChannel)
    && (s.server.Some? ==> s.server.value < s.nextChannel)
    && (Open(s.pc) ==> s.stopCh !in s.closed && s.stopCh !in s.stoppedServers)
    && (s.pc.StopServer? || s.pc.StopWait? ==> s.stopCh in s.closed)
  }

  ghost predicate GoroutineInv(s: State) {
    && (Quiescent(s.pc) ==> s.live == map[])
    && (s.live != map[] ==> s.server == Some(s.stopCh))
    && (s.pc.StopWait? && s.server.Some? ==> s.server.value in s.stoppedServers)
    && (s.pc in {Update, Share, Listen, Dial, RegisterKubelet, SpawnCleanup, SpawnWatcher, Watching, Restarting} ==>
          s.server == Some(s.stopCh))
    && (forall g :: g in s.live ==>
          g < s.nextID && s.live[g].epoch == s.stopCh && Loyal(s.live[g])
          && (s.live[g].mode.Blocked? ==> s.live[g].mode.channel == s.stopCh)
          && (s.live[g].mode.Serving? ==> s.live[g].mode.server == s.stopCh))
    && (forall i :: 0 <= i < |s.gone| ==> Loyal(s.gone[i]))
  }

  ghost predicate Inv(s: State) { ChannelInv(s) && GoroutineInv(s) }

  lemma ChannelInvClose(s: State, periodic: bool)
    requires ChannelInv(s) && s.pc.StopClose?
    ensures ChannelInv(Advance(s, periodic))
  {
    var more := s.closes + [s.stopCh];
    assert forall i :: 0 <= i < |s.closes| ==> s.closes[i] in s.closes;
  }

  /** Steps that close no channel, stop no server and make neither. */
  lemma ChannelInvFrame(s: State, t: State)
    requires ChannelInv(s)
    requires t.stopCh == s.stopCh && t.nextChannel == s.nextChannel && t.closed == s.closed && t.closes == s.closes
    requires t.server == s.server && t.stoppedServers == s.stoppedServers
    requires Open(t.pc) ==> Open(s.pc)
    requires t.pc.StopServer? || t.pc.StopWait? ==> t.pc == s.pc
    ensures ChannelInv(t)
  {
  }

  lemma ChannelInvStep(s: State, step: Step, periodic: bool)
    requires ChannelInv(s) && Enabled(s, step)
    ensures ChannelInv(Apply(s, step, periodic))
  {
    if step == Proceed && s.pc.StopClose? {
      ChannelInvClose(s, periodic);
    } else if step == Proceed && (s.pc.StopServer? || s.pc == MakeChannel || s.pc == MakeServer) {
      assert Apply(s, step, periodic).closes == s.closes;
    } else {
      ChannelInvFrame(s, Apply(s, step, periodic));
    }
  }

  lemma GoroutineInvSpawn(s: State, kind: Kind, pc: Pc)
    requires GoroutineInv(s) && s.server == Some(s.stopCh) && pc in {Dial, SpawnWatcher, Watching}
    ensures GoroutineInv(Spawn(s, kind, pc))
  {
  }

  lemma GoroutineInvAdvance(s: State, periodic: bool)
    requires GoroutineInv(s) && Enabled(s, Proceed)
    ensures GoroutineInv(Advance(s, periodic))
  {
    if s.pc == Listen {
      GoroutineInvSpawn(s, ServeLoop, Dial);
    } else if s.pc == SpawnCleanup && periodic {
      GoroutineInvSpawn(s, IdleCleanup, SpawnWatcher);
    } else if s.pc == SpawnWatcher {
      GoroutineInvSpawn(s, Watcher, Watching);
    } else {
      var t := Advance(s, periodic);
      assert t.live == s.live && t.gone == s.gone && t.nextID == s.nextID;
    }
  }

  lemma GoroutineInvStep(s: State, step: Step, periodic: bool)
    requires GoroutineInv(s) && Enabled(s, step)
    ensures GoroutineInv(Apply(s, step, periodic))
  {
    if step == Proceed {
      GoroutineInvAdvance(s, periodic);
    }
  }

  lemma {:induction false} RunInv(steps: seq<Step>, periodic: bool)
    requires Run(Init(), steps, periodic).Some?
    ensures Inv(Run(Init(), steps, periodic).value)
  {
    if steps != [] {
      var front, last := steps[..|steps| - 1], steps[|steps| - 1];
      RunInv(front, periodic);
      ChannelInvStep(Run(Init(), front, periodic).value, last, periodic);
      GoroutineInvStep(Run(Init(), front, periodic).value, last, periodic);
    }
  }

  // ----- main results

  /** In every run, with any restarts, extra Stops and failing Starts, and any scheduling of
      the goroutines: no channel is closed twice; when Start replaces the channel nothing
      tracked is alive; and every goroutine, alive or returned, has only ever read the stop
      channel and the gRPC server of the Start that launched it. */
  lemma EpochsNeverMix(steps: seq<Step>, periodic: bool)
    requires Run(Init(), steps, periodic).Some?
    ensures var s := Run(Init(), steps, periodic).value;
      && (forall i, j :: 0 <= i < j < |s.closes| ==> s.closes[i] != s.closes[j])
      && (s.pc == MakeChannel || s.pc == MakeServer ==> s.live == map[])
      && (forall g :: g in s.live ==> s.live[g].epoch == s.stopCh && Loyal(s.live[g]))
      && (forall i :: 0 <= i < |s.gone| ==> Loyal(s.gone[i]))
  {
    RunInv(steps, periodic);
  }

  /** While the event loop runs no goroutine can be told to stop and no Serve can end other
      than by a crash; once Stop waits, every select and every Serve can end. */
  lemma StopReachesExactlyItsOwn(steps: seq<Step>, periodic: bool, g: nat)
    requires Run(Init(), steps, periodic).Some?
    ensures var s := Run(Init(), steps, periodic).value;
      && (g in s.live && s.live[g].mode.Blocked? ==>
            (Open(s.pc) ==> !Enabled(s, StopSeen(g))) && (s.pc.StopWait? ==> Enabled(s, StopSeen(g))))
      && (g in s.live && s.live[g].mode.Serving? ==>
            (Open(s.pc) ==> !Enabled(s, ServeEnds(g))) && (s.pc.StopWait? ==> Enabled(s, ServeEnds(g))))
  {
    RunInv(steps, periodic);
  }

  lemma {:induction false} RunAppend(s: State, a: seq<Step>, b: seq<Step>, periodic: bool)
    requires Run(s, a, periodic).Some?
    ensures Run(s, a + b, periodic) == Run(Run(s, a, periodic).value, b, periodic)
  {
    if b == [] {
      assert a + b == a;
    } else {
      var front, last := b[..|b| - 1], b[|b| - 1];
      RunAppend(s, a, front, periodic);
      assert a + b == (a + front) + [last] && b == front + [last];
      assert ((a + front) + [last])[..|a + front|] == a + front;
    }
  }

  /** A goroutine goes on to notice that it has been stopped. */
  predicate Notices(step: Step) { step.EnterSelect? || step.StopSeen? || step.ServeEnds? || step.ServeRefused? }

  predicate Orderly(steps: seq<Step>) {
    forall i :: 0 <= i < |steps| ==> Notices(steps[i]) || steps[i].Proceed?
  }

  lemma Extend(s: State, steps: seq<Step>, cur: State, step: Step, periodic: bool)
    returns (more: seq<Step>, next: State)
    requires Run(s, steps, periodic) == Some(cur) && Inv(cur) && Enabled(cur, step)
    requires Orderly(steps) && Orderly([step])
    ensures next == Apply(cur, step, periodic) && Inv(next)
    ensures Run(s, more, periodic) == Some(next) && Orderly(more)
  {
    assert step == [step][0];
    more, next := Follow(s, steps, cur, step, periodic);
  }

  /** One live goroutine can always be brought to return: out of a select by the closed
      channel, out of Serve by the stopped server. */
  lemma OneReturns(s: State, g: nat, periodic: bool) returns (steps: seq<Step>, t: State)
    requires Inv(s) && s.pc.StopWait? && g in s.live
    ensures Run(s, steps, periodic) == Some(t) && Orderly(steps)
    ensures Inv(t) && t.pc == s.pc && t.live.Keys == s.live.Keys - {g}
  {
    steps, t := [], s;
    if s.live[g].mode.Serving? {
      steps, t := Extend(s, steps, t, ServeEnds(g), periodic);
    } else {
      if s.live[g].mode.Armed? {
        steps, t := Extend(s, steps, t, ServeRefused(g), periodic);
      }
      if t.live[g].mode.Running? {
        steps, t := Extend(s, steps, t, EnterSelect(g), periodic);
      }
      steps, t := Extend(s, steps, t, StopSeen(g), periodic);
    }
  }

  lemma {:induction false} AllReturn(s: State, periodic: bool) returns (steps: seq<Step>)
    requires Inv(s) && s.pc.StopWait?
    ensures Run(s, steps, periodic).Some? && Orderly(steps)
    ensures Run(s, steps, periodic).value.pc == Target(s.pc.k)
    decreases |s.live.Keys|
  {
    if s.live.Keys == {} {
      assert s.live == map[];
      var t;
      steps, t := Extend(s, [], s, Proceed, periodic);
    } else {
      var g :| g in s.live.Keys;
      var first, t := OneReturns(s, g, periodic);
      assert |t.live.Keys| < |s.live.Keys|;
      var rest := AllReturn(t, periodic);
      RunAppend(s, first, rest, periodic);
      steps := first + rest;
    }
  }

  /** Stop can always return: in whatever state a run has left the tracked goroutines, they can
      all finish and let `wg.Wait` through, without any timer, handoff or crash coming to
      their help. */
  lemma StopCanReturn(run: seq<Step>, periodic: bool) returns (more: seq<Step>)
    requires Run(Init(), run, periodic).Some? && Run(Init(), run, periodic).value.pc.StopWait?
    ensures Orderly(more) && Run(Init(), run + more, periodic).Some?
    ensures Run(Init(), run + more, periodic).value.pc ==
      match Run(Init(), run, periodic).value.pc.k
      case ToFresh => Fresh
      case ToCleanup => Cleanup
      case ToDone => Done
  {
    RunInv(run, periodic);
    more := AllReturn(Run(Init(), run, periodic).value, periodic);
    RunAppend(Init(), run, more, periodic);
  }

  // ----- and cannot help returning

  function Busy(live: map<nat, Goroutine>): set<nat> {
    set g | g in live && (live[g].mode.Running? || live[g].mode.Armed?)
  }

  function ArmedOnes(live: map<nat, Goroutine>): set<nat> { set g | g in live && live[g].mode.Armed? }

  /** Noticing steps still to be made: one from a select or Serve, two when running, three when
      about to call Serve. */
  function Rank(s: State): nat { |s.live.Keys| + |Busy(s.live)| + |ArmedOnes(s.live)| }

  lemma RankBound(s: State)
    ensures Rank(s) <= 3 * |s.live|
  {
    assert |s.live.Keys| == |s.live|;
    Subset(Busy(s.live), s.live.Keys);
    Subset(ArmedOnes(s.live), s.live.Keys);
  }

  lemma {:induction false} Subset(a: set<nat>, b: set<nat>)
    requires a <= b
    ensures |a| <= |b|
  {
    if a != {} {
      var x :| x in a;
      Subset(a - {x}, b - {x});
    }
  }

  /** One goroutine changes its mode. */
  lemma RankChange(live: map<nat, Goroutine>, g: nat, go: Goroutine)
    requires g in live && !go.mode.Armed?
    ensures var t := live[g := go];
      && t.Keys == live.Keys && ArmedOnes(t) == ArmedOnes(live) - {g}
      && Busy(t) == if go.mode.Running? then Busy(live) + {g} else Busy(live) - {g}
  {
  }

  lemma RankReturn(live: map<nat, Goroutine>, g: nat)
    requires g in live && (live[g].mode.Blocked? || live[g].mode.Serving?)
    ensures var t := live - {g};
      t.Keys == live.Keys - {g} && Busy(t) == Busy(live) && ArmedOnes(t) == ArmedOnes(live)
  {
  }

  lemma NoticingLowers(s: State, step: Step, periodic: bool)
    requires Notices(step) && Enabled(s, step)
    ensures Rank(Apply(s, step, periodic)) < Rank(s) && Apply(s, step, periodic).pc == s.pc
  {
    var t, g := Apply(s, step, periodic), step.g;
    if step.StopSeen? || step.ServeEnds? {
      RankReturn(s.live, g);
    } else {
      RankChange(s.live, g, t.live[g]);
      assert g in Busy(s.live);
      assert step.ServeRefused? ==> g in ArmedOnes(s.live) && Busy(s.live) + {g} == Busy(s.live);
      assert step.EnterSelect? ==> ArmedOnes(s.live) - {g} == ArmedOnes(s.live);
    }
  }

  /** While Stop waits every live goroutine has a noticing step. */
  lemma SomeNotices(s: State, g: nat)
    requires Inv(s) && s.pc.StopWait? && g in s.live
    ensures Enabled(s, EnterSelect(g)) || Enabled(s, StopSeen(g))
      || Enabled(s, ServeEnds(g)) || Enabled(s, ServeRefused(g))
  {
  }

  lemma {:induction false} NoticingRun(s: State, more: seq<Step>, periodic: bool)
    requires Inv(s) && Run(s, more, periodic).Some?
    requires forall i :: 0 <= i < |more| ==> Notices(more[i])
    ensures var t := Run(s, more, periodic).value; Inv(t) && t.pc == s.pc && |more| + Rank(t) <= Rank(s)
  {
    if more != [] {
      var front, last := more[..|more| - 1], more[|more| - 1];
      assert forall i :: 0 <= i < |front| ==> front[i] == more[i];
      NoticingRun(s, front, periodic);
      var before := Run(s, front, periodic).value;
      NoticingLowers(before, last, periodic);
      ChannelInvStep(before, last, periodic);
      GoroutineInvStep(before, last, periodic);
    }
  }

  /** Stop goes on exactly when nobody has anything left to notice. */
  lemma ProceedsIff(s: State)
    requires Inv(s) && s.pc.StopWait?
    ensures Enabled(s, Proceed) <==> forall step :: Notices(step) ==> !Enabled(s, step)
  {
    if !Enabled(s, Proceed) {
      var g :| g in s.live;
      SomeNotices(s, g);
      assert Notices(EnterSelect(g)) && Notices(StopSeen(g)) && Notices(ServeEnds(g)) && Notices(ServeRefused(g));
    }
  }

  /** Every way in which the goroutines go on to notice a waiting Stop is at most three steps
      long for each of them, and when it cannot be continued Stop returns. */
  lemma StopMustReturn(run: seq<Step>, more: seq<Step>, periodic: bool)
    requires Run(Init(), run, periodic).Some? && Run(Init(), run, periodic).value.pc.StopWait?
    requires Run(Run(Init(), run, periodic).value, more, periodic).Some?
    requires forall i :: 0 <= i < |more| ==> Notices(more[i])
    ensures var s := Run(Init(), run, periodic).value;
      var t := Run(s, more, periodic).value;
      && |more| <= 3 * |s.live|
      && (Enabled(t, Proceed) <==> forall step :: Notices(step) ==> !Enabled(t, step))
      && (Enabled(t, Proceed) ==>
            var next := Apply(t, Proceed, periodic).pc;
            match s.pc.k case ToFresh => next == Fresh case ToCleanup => next == Cleanup case ToDone => next == Done)
  {
    RunInv(run, periodic);
    var s := Run(Init(), run, periodic).value;
    NoticingRun(s, more, periodic);
    RankBound(s);
    ProceedsIff(Run(s, more, periodic).value);
  }

  // ----- where the caller goes

  /** The caller is on its way out: Stop was called to shut down. */
  predicate Leaving(pc: Pc) {
    pc == Done || pc == StopClose(ToDone) || pc == StopServer(ToDone) || pc == StopWait(ToDone)
  }

  /** A Stop called before the first Start. */
  predicate Early(pc: Pc) {
    pc == Fresh || pc == StopClose(ToFresh) || pc == StopServer(ToFresh) || pc == StopWait(ToFresh)
  }

  lemma LeavingAdvance(s: State, periodic: bool)
    requires Enabled(s, Proceed)
    ensures Leaving(Advance(s, periodic).pc) ==> Leaving(s.pc)
    ensures Early(Advance(s, periodic).pc) ==> Early(s.pc)
  {
  }

  lemma LeavingStep(s: State, step: Step, periodic: bool)
    requires Enabled(s, step)
    ensures Leaving(Apply(s, step, periodic).pc) ==> Leaving(s.pc) || step == ExitEvent
    ensures Early(Apply(s, step, periodic).pc) ==> Early(s.pc)
  {
    if step == Proceed {
      LeavingAdvance(s, periodic);
    }
  }

  /** The caller leaves only after a signal to exit: no restart, failure, crash or additional
      Stop ends the process in its place. */
  lemma {:induction false} LeavesOnlyOnExit(steps: seq<Step>, periodic: bool)
    requires Run(Init(), steps, periodic).Some? && Leaving(Run(Init(), steps, periodic).value.pc)
    ensures ExitEvent in steps
  {
    if steps != [] {
      var front, last := steps[..|steps| - 1], steps[|steps| - 1];
      LeavingStep(Run(Init(), front, periodic).value, last, periodic);
      if last != ExitEvent {
        LeavesOnlyOnExit(front, periodic);
        assert steps == front + [last];
      }
    }
  }

  /** From a restart on, the caller neither leaves nor starts afresh until a signal to exit. */
  lemma {:induction false} RestartStays(s: State, steps: seq<Step>, periodic: bool)
    requires s.pc == Restarting && Run(s, steps, periodic).Some? && ExitEvent !in steps
    ensures var pc := Run(s, steps, periodic).value.pc; !Leaving(pc) && !Early(pc)
  {
    if steps != [] {
      var front, last := steps[..|steps| - 1], steps[|steps| - 1];
      assert steps == front + [last];
      RestartStays(s, front, periodic);
      LeavingStep(Run(s, front, periodic).value, last, periodic);
    }
  }

  /** The actions of the caller from the cleanup on, Start's own from the third. */
  const START_ACTIONS := [
    Cleanup, Prepare, MakeChannel, MakeServer, Update, Share, Listen, Dial, RegisterKubelet,
    SpawnCleanup, SpawnWatcher, Watching]

  function Times(n: nat): (steps: seq<Step>)
    ensures |steps| == n
  {
    seq(n, _ => Proceed)
  }

  lemma NextAction(s: State, n: nat, periodic: bool)
    requires n + 1 < |START_ACTIONS| && s.pc == START_ACTIONS[n]
    ensures Enabled(s, Proceed) && Advance(s, periodic).pc == START_ACTIONS[n + 1]
  {
  }

  /** Without a failure Start goes through all its actions in order, and into the event loop. */
  lemma {:induction false} StartGoesOn(s: State, n: nat, periodic: bool)
    requires s.pc == Cleanup && n < |START_ACTIONS|
    ensures Run(s, Times(n), periodic).Some? && Run(s, Times(n), periodic).value.pc == START_ACTIONS[n]
  {
    if n > 0 {
      assert Times(n)[..n - 1] == Times(n - 1);
      StartGoesOn(s, n - 1, periodic);
      NextAction(Run(s, Times(n - 1), periodic).value, n - 1, periodic);
    }
  }

  lemma OrderlyAppend(a: seq<Step>, b: seq<Step>)
    requires Orderly(a) && Orderly(b)
    ensures Orderly(a + b)
  {
  }

  /** The caller can go on from the restart to the cleanup, through a whole Stop. */
  lemma RestartReachesCleanup(s: State, periodic: bool) returns (steps: seq<Step>)
    requires Inv(s) && s.pc == Restarting
    ensures Orderly(steps) && Run(s, steps, periodic).Some? && Run(s, steps, periodic).value.pc == Cleanup
  {
    var t;
    steps, t := Extend(s, [], s, Proceed, periodic);
    steps, t := Extend(s, steps, t, Proceed, periodic);
    steps, t := Extend(s, steps, t, Proceed, periodic);
    var rest := AllReturn(t, periodic);
    RunAppend(s, steps, rest, periodic);
    OrderlyAppend(steps, rest);
    steps := steps + rest;
  }

  /** A restart starts again: in every run that has come to a restart, the caller can stop,
      clean up, go through the whole of Start and watch again. */
  lemma RestartStarts(run: seq<Step>, periodic: bool) returns (more: seq<Step>)
    requires Run(Init(), run, periodic).Some? && Run(Init(), run, periodic).value.pc == Restarting
    ensures Orderly(more) && Run(Init(), run + more, periodic).Some?
    ensures Run(Init(), run + more, periodic).value.pc == Watching
  {
    RunInv(run, periodic);
    var s := Run(Init(), run, periodic).value;
    more := RestartReachesCleanup(s, periodic);
    var n := |START_ACTIONS| - 1;
    StartGoesOn(Run(s, more, periodic).value, n, periodic);
    RunAppend(s, more, Times(n), periodic);
    OrderlyAppend(more, Times(n));
    more := more + Times(n);
    RunAppend(Init(), run, more, periodic);
  }

  /** So does the process when it begins. */
  lemma FirstStarts(periodic: bool)
    ensures var n := |START_ACTIONS|;
      Run(Init(), Times(n), periodic).Some? && Run(Init(), Times(n), periodic).value.pc == Watching
  {
    var n := |START_ACTIONS|;
    var s := Advance(Init(), periodic);
    assert Times(1)[..0] == [] && Run(Init(), [], periodic) == Some(Init());
    assert Run(Init(), Times(1), periodic) == Some(s);
    StartGoesOn(s, n - 1, periodic);
    RunAppend(Init(), Times(1), Times(n - 1), periodic);
    assert Times(1) + Times(n - 1) == Times(n);
  }

  /** Start fails only by an error of its own. */
  lemma {:induction false} FailsOnlyOnError(steps: seq<Step>, periodic: bool)
    requires Run(Init(), steps, periodic).Some? && Run(Init(), steps, periodic).value.pc == Failed
    ensures Fail in steps
  {
    var n := |steps| - 1;
    if steps[n] != Fail {
      FailsOnlyOnError(steps[..n], periodic);
      assert steps == steps[..n] + [steps[n]];
    }
  }

  // ----- which goroutines run

  function OfKind(live: map<nat, Goroutine>, kind: Kind): set<nat> { set g | g in live && live[g].kind == kind }

  /** How many goroutines of the kind run while the caller is at `pc`. */
  function Expected(pc: Pc, kind: Kind, periodic: bool): nat {
    match kind
    case ServeLoop => 1
    case IdleCleanup => if periodic && pc in {SpawnWatcher, Watching, Restarting} then 1 else 0
    case Watcher => if pc in {Watching, Restarting} then 1 else 0
  }

  predicate Started(pc: Pc) {
    pc in {Dial, RegisterKubelet, SpawnCleanup, SpawnWatcher, Watching, Restarting}
  }

  ghost predicate KindsInv(s: State, periodic: bool) {
    Started(s.pc) ==> forall kind :: |OfKind(s.live, kind)| == Expected(s.pc, kind, periodic)
  }

  lemma KindsSpawn(s: State, kind: Kind, pc: Pc, k: Kind)
    requires GoroutineInv(s)
    ensures |OfKind(Spawn(s, kind, pc).live, k)| == |OfKind(s.live, k)| + if k == kind then 1 else 0
  {
    var t := Spawn(s, kind, pc);
    assert OfKind(t.live, k) == OfKind(s.live, k) + if k == kind then {s.nextID} else {};
    assert s.nextID !in OfKind(s.live, k);
  }

  lemma KindsNone(live: map<nat, Goroutine>, k: Kind)
    requires live == map[]
    ensures OfKind(live, k) == {}
  {
  }

  lemma KindsAdvance(s: State, periodic: bool)
    requires Inv(s) && KindsInv(s, periodic) && Enabled(s, Proceed)
    ensures KindsInv(Advance(s, periodic), periodic)
  {
    forall k ensures Started(Advance(s, periodic).pc) ==>
      |OfKind(Advance(s, periodic).live, k)| == Expected(Advance(s, periodic).pc, k, periodic)
    {
      if s.pc == Listen {
        KindsNone(s.live, k);
        KindsSpawn(s, ServeLoop, Dial, k);
      } else if s.pc == SpawnCleanup && periodic {
        KindsSpawn(s, IdleCleanup, SpawnWatcher, k);
      } else if s.pc == SpawnWatcher {
        KindsSpawn(s, Watcher, Watching, k);
      }
    }
  }

  /** A goroutine's step keeps its kind, and between Start and Stop none returns. */
  lemma KindsKept(s: State, step: Step, periodic: bool)
    requires Inv(s) && KindsInv(s, periodic) && Enabled(s, step) && step != Proceed
    ensures KindsInv(Apply(s, step, periodic), periodic)
  {
    var t := Apply(s, step, periodic);
    if Started(t.pc) {
      assert !step.StopSeen? && !step.ServeEnds?;
      forall k ensures OfKind(t.live, k) == OfKind(s.live, k) {
      }
    }
  }

  lemma {:induction false} RunKinds(steps: seq<Step>, periodic: bool)
    requires Run(Init(), steps, periodic).Some?
    ensures KindsInv(Run(Init(), steps, periodic).value, periodic)
  {
    if steps != [] {
      var front, last := steps[..|steps| - 1], steps[|steps| - 1];
      RunInv(front, periodic);
      RunKinds(front, periodic);
      if last == Proceed {
        KindsAdvance(Run(Init(), front, periodic).value, periodic);
      } else {
        KindsKept(Run(Init(), front, periodic).value, last, periodic);
      }
    }
  }

  /** Whenever the event loop runs, exactly one serve loop and one watcher of the current Start
      run, and one idle cleanup exactly when it is asked for. */
  lemma WatchingRunsAll(steps: seq<Step>, periodic: bool)
    requires Run(Init(), steps, periodic).Some? && Run(Init(), steps, periodic).value.pc == Watching
    ensures var live := Run(Init(), steps, periodic).value.live;
      && |OfKind(live, ServeLoop)| == 1 && |OfKind(live, Watcher)| == 1
      && |OfKind(live, IdleCleanup)| == if periodic then 1 else 0
    ensures var s := Run(Init(), steps, periodic).value; forall g :: g in s.live ==> s.live[g].epoch == s.stopCh
  {
    RunInv(steps, periodic);
    RunKinds(steps, periodic);
  }

  /** The serve loop serves, and after a crash serves again: while the event loop runs it can
      always come to be inside Serve of the current server, with nobody else moving. */
  lemma CanServe(s: State, g: nat, periodic: bool) returns (steps: seq<Step>)
    requires Inv(s) && s.pc == Watching && g in s.live && s.live[g].kind == ServeLoop
    ensures Run(s, steps, periodic).Some?
    ensures var t := Run(s, steps, periodic).value;
      t.pc == Watching && g in t.live && t.live[g].mode == Serving(s.stopCh)
  {
    var next := s;
    steps := [];
    if next.live[g].mode == Running {
      steps, next := Follow(s, steps, next, EnterSelect(g), periodic);
    }
    if next.live[g].mode.Blocked? {
      steps, next := Follow(s, steps, next, OtherEvent(g), periodic);
    }
    if next.live[g].mode.Armed? {
      steps, next := Follow(s, steps, next, ServeStarts(g), periodic);
    }
  }

  lemma CrashedServesAgain(s: State, g: nat, periodic: bool) returns (steps: seq<Step>)
    requires Inv(s) && s.pc == Watching && g in s.live && s.live[g].kind == ServeLoop && s.live[g].mode.Serving?
    ensures Run(s, [ServeCrashes(g)] + steps, periodic).Some?
    ensures var t := Run(s, [ServeCrashes(g)] + steps, periodic).value;
      t.pc == Watching && g in t.live && t.live[g].mode == Serving(s.stopCh)
  {
    var crash, next := Follow(s, [], s, ServeCrashes(g), periodic);
    steps := CanServe(next, g, periodic);
    assert crash == [ServeCrashes(g)];
    RunAppend(s, crash, steps, periodic);
  }

  lemma Follow(s: State, steps: seq<Step>, cur: State, step: Step, periodic: bool)
    returns (more: seq<Step>, next: State)
    requires Run(s, steps, periodic) == Some(cur) && Inv(cur) && Enabled(cur, step)
    ensures next == Apply(cur, step, periodic) && Inv(next)
    ensures more == steps + [step] && Run(s, more, periodic) == Some(next)
  {
    more := steps + [step];
    assert more[..|steps|] == steps;
    next := Apply(cur, step, periodic);
    ChannelInvStep(cur, step, periodic);
    GoroutineInvStep(cur, step, periodic);
  }
}
