/** The restart loop around the gRPC server and its crash budget. */
module CrashBudget {
  import opened Wrappers

  const RESET_AFTER := 3600.0

  /** What one round of the loop meets: a closed stop channel, a Serve that ends without an
      error, or one that crashes at a point in time (in seconds). */
  datatype Attempt = StopSeen | ServedCleanly | Crashed(at: real)

  datatype Exit = Stopped | Finished | Quit | StillServing

  // ----- the rule

  /** The restart counter after crashes with the given gaps, or None once the process has
      quit. */
  function Count(gaps: seq<real>): Option<nat> {
    if gaps == [] then Some(0)
    else
      match Count(gaps[..|gaps| - 1])
      case None => None
      case Some(c) =>
        if c > 5 then None
        else Some(if gaps[|gaps| - 1] > RESET_AFTER then 1 else c + 1)
  }

  // ----- the code

  predicate AllCrashes(attempts: seq<Attempt>, n: nat) {
    n <= |attempts| && forall k :: 0 <= k < n ==> attempts[k].Crashed?
  }

  /** Time of crash `n`, counted from one; crash 0 is the start of the loop. */
  function CrashTime(start: real, attempts: seq<Attempt>, n: nat): real
    requires AllCrashes(attempts, n)
  {
    if n == 0 then start else attempts[n - 1].at
  }

  /** The gaps of the first `n` crashes. */
  function Gaps(start: real, attempts: seq<Attempt>, n: nat): (gaps: seq<real>)
    requires AllCrashes(attempts, n)
    ensures |gaps| == n
  {
    if n == 0 then []
    else Gaps(start, attempts, n - 1) + [CrashTime(start, attempts, n) - CrashTime(start, attempts, n - 1)]
  }

  /** Each gap is the time since the crash before, the first since the loop began. */
  lemma {:induction false} GapsAre(start: real, attempts: seq<Attempt>, n: nat, k: nat)
    requires AllCrashes(attempts, n) && k < n
    ensures Gaps(start, attempts, n)[k] == attempts[k].at - if k == 0 then start else attempts[k - 1].at
  {
    if k < n - 1 {
      GapsAre(start, attempts, n - 1, k);
    }
  }

  /** The counter after the first `n` crashes. */
  function CountAt(start: real, attempts: seq<Attempt>, n: nat): Option<nat>
    requires AllCrashes(attempts, n)
  {
    Count(Gaps(start, attempts, n))
  }

  /** The rule for one more crash. */
  lemma CountNext(start: real, attempts: seq<Attempt>, n: nat, c: nat)
    requires n < |attempts| && AllCrashes(attempts, n + 1)
    requires CountAt(start, attempts, n) == Some(c)
    ensures CountAt(start, attempts, n + 1) ==
      if c > 5 then None
      else if attempts[n].at - CrashTime(start, attempts, n) > RESET_AFTER then Some(1)
      else Some(c + 1)
  {
    var before, gap := Gaps(start, attempts, n), attempts[n].at - CrashTime(start, attempts, n);
    assert Gaps(start, attempts, n + 1) == before + [gap];
    assert (before + [gap])[..n] == before;
  }

  predicate Ends(attempts: seq<Attempt>, n: nat, exit: Exit)
    requires n <= |attempts|
  {
    match exit
    case Stopped => n < |attempts| && attempts[n].StopSeen?
    case Finished => n < |attempts| && attempts[n].ServedCleanly?
    case StillServing => n == |attempts|
    case Quit => n > 0
  }

  /** `n` crashes are gone through before the loop ends; it quits exactly when the rule does. */
  method ServeLoop(start: real, attempts: seq<Attempt>) returns (exit: Exit, restartCount: nat, n: nat)
    ensures AllCrashes(attempts, n) && Ends(attempts, n, exit)
    ensures CountAt(start, attempts, n) == if exit == Quit then None else Some(restartCount)
    ensures exit == Quit ==> CountAt(start, attempts, n - 1) == Some(restartCount)
  {
    var lastCrashTime := start;
    restartCount := 0;
    for i := 0 to |attempts|
      invariant AllCrashes(attempts, i)
      invariant lastCrashTime == CrashTime(start, attempts, i)
      invariant CountAt(start, attempts, i) == Some(restartCount)
    {
      if attempts[i].StopSeen? {
        return Stopped, restartCount, i;
      }
      if attempts[i].ServedCleanly? {
        return Finished, restartCount, i;
      }
      var at := attempts[i].at;
      assert AllCrashes(attempts, i + 1) && CrashTime(start, attempts, i + 1) == at;
      CountNext(start, attempts, i, restartCount);
      if restartCount > 5 {
        return Quit, restartCount, i + 1;
      }
      var timeSinceLastCrash := at - lastCrashTime;
      lastCrashTime := at;
      if timeSinceLastCrash > RESET_AFTER {
        restartCount := 1;
      } else {
        restartCount := restartCount + 1;
      }
    }
    return StillServing, restartCount, |attempts|;
  }

  // ----- what the rule amounts to

  /** Crashes since the last gap of more than an hour, that gap's own crash not counted. */
  function Trailing(gaps: seq<real>): nat {
    if gaps == [] || gaps[|gaps| - 1] > 3600.0 then 0 else 1 + Trailing(gaps[..|gaps| - 1])
  }

  predicate HasLong(gaps: seq<real>) { exists i :: 0 <= i < |gaps| && gaps[i] > 3600.0 }

  function Load(gaps: seq<real>): nat { Trailing(gaps) + if HasLong(gaps) then 1 else 0 }

  lemma LoadSnoc(gaps: seq<real>)
    requires gaps != []
    ensures Load(gaps) == if gaps[|gaps| - 1] > 3600.0 then 1 else Load(gaps[..|gaps| - 1]) + 1
  {
    var n := |gaps| - 1;
    assert forall i :: 0 <= i < n ==> gaps[..n][i] == gaps[i];
    assert HasLong(gaps) <==> HasLong(gaps[..n]) || gaps[n] > 3600.0;
  }

  /** Some earlier crash left the counter at six or more. */
  predicate Exhausted(gaps: seq<real>) {
    exists n :: 0 <= n < |gaps| && Load(gaps[..n]) >= 6
  }

  /** As long as the process runs, the counter is the number of crashes since the last gap of
      more than an hour, plus one if there was such a gap, and stays within 0..6. The process
      quits exactly at the crash after the counter reaches six. */
  lemma {:induction false} CountClosedForm(gaps: seq<real>)
    ensures Count(gaps) == None <==> Exhausted(gaps)
    ensures Count(gaps).Some? ==> Count(gaps).value == Load(gaps) <= 6
  {
    if gaps != [] {
      var n := |gaps| - 1;
      var front := gaps[..n];
      CountClosedForm(front);
      LoadSnoc(gaps);
      assert forall k :: 0 <= k <= n ==> gaps[..k] == front[..k];
      if Exhausted(gaps) {
        var k :| 0 <= k < |gaps| && Load(gaps[..k]) >= 6;
        assert k == n || Load(front[..k]) >= 6;
      }
      if Exhausted(front) {
        var k :| 0 <= k < n && Load(front[..k]) >= 6;
        assert Load(gaps[..k]) >= 6;
      }
      assert gaps[..n] == front;
    }
  }

  lemma {:induction false} LoadBound(gaps: seq<real>)
    ensures Load(gaps) <= |gaps|
  {
    if gaps != [] {
      LoadSnoc(gaps);
      LoadBound(gaps[..|gaps| - 1]);
    }
  }

  /** Never before the seventh crash. */
  lemma SixCrashesAreSurvived(gaps: seq<real>)
    ensures |gaps| <= 6 ==> Count(gaps).Some?
  {
    CountClosedForm(gaps);
    if Exhausted(gaps) {
      var n :| 0 <= n < |gaps| && Load(gaps[..n]) >= 6;
      LoadBound(gaps[..n]);
    }
  }

  /** The last gap plays no part: after a counter of six even a crash that comes days later
      ends the process, although the code's comment speaks of runs of less than an hour. */
  lemma LastGapIrrelevant(gaps: seq<real>, gap: real)
    requires Count(gaps).Some?
    ensures Count(gaps + [gap]) == None <==> Load(gaps) == 6
  {
    CountClosedForm(gaps);
    assert (gaps + [gap])[..|gaps|] == gaps;
  }

  lemma {:induction false} LoadOfShort(gaps: seq<real>)
    requires forall i :: 0 <= i < |gaps| ==> gaps[i] <= RESET_AFTER
    ensures Load(gaps) == |gaps|
  {
    if gaps != [] {
      LoadSnoc(gaps);
      LoadOfShort(gaps[..|gaps| - 1]);
    }
  }

  /** Six crashes a second apart and a seventh after a whole day: the process quits. */
  lemma QuitsAfterQuietDay()
    ensures Count([1.0, 1.0, 1.0, 1.0, 1.0, 1.0] + [86400.0]) == None
  {
    var six := [1.0, 1.0, 1.0, 1.0, 1.0, 1.0];
    SixCrashesAreSurvived(six);
    LoadOfShort(six);
    LastGapIrrelevant(six, 86400.0);
  }
}
