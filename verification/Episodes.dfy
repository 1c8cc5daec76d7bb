/** The alert episode both watchdog checks run (watchdog/replica_drift.py, watchdog/patroni_leader.py):
    an online machine that must say what a definition over the whole poll trace says. */
module Episodes {
  import opened Options

  datatype Episode = Episode(startedAt: Option<real>, alerted: bool)

  datatype Signal = Silent | Alarm(seconds: int) | Recovery(seconds: int)

  datatype Poll = Poll(unhealthy: bool, now: real)

  const QUIET: Episode := Episode(None, false)

  /** Python's `int(x)`, which rounds toward zero. */
  function Trunc(x: real): int {
    if x >= 0.0 then x.Floor else -((-x).Floor)
  }

  /** It drops the fraction, on either side of zero. */
  lemma TruncIs(x: real)
    ensures x >= 0.0 ==> Trunc(x) as real <= x < (Trunc(x) + 1) as real
    ensures x <= 0.0 ==> (Trunc(x) - 1) as real < x <= Trunc(x) as real
  {
  }

  function Step(e: Episode, p: Poll, threshold: int): (Episode, Signal) {
    if p.unhealthy then
      var started := if e.startedAt.None? then p.now else e.startedAt.value;
      var seconds := Trunc(p.now - started);
      if !e.alerted && seconds >= threshold then (Episode(Some(started), true), Alarm(seconds))
      else (Episode(Some(started), e.alerted), Silent)
    else if e.startedAt.Some? && e.alerted then (QUIET, Recovery(Trunc(p.now - e.startedAt.value)))
    else (QUIET, Silent)
  }

  function After(polls: seq<Poll>, threshold: int): Episode {
    if polls == [] then QUIET else Step(After(polls[..|polls| - 1], threshold), polls[|polls| - 1], threshold).0
  }

  /** What the machine says at poll i. */
  function Said(polls: seq<Poll>, threshold: int, i: nat): Signal
    requires i < |polls|
  {
    Step(After(polls[..i], threshold), polls[i], threshold).1
  }

  // ---------------------------------------------------------------- the definition over the trace

  /** First poll of the unhealthy run that poll i belongs to. */
  function RunStart(polls: seq<Poll>, i: nat): (s: nat)
    requires i < |polls| && polls[i].unhealthy
    ensures s <= i && (forall j | s <= j <= i :: polls[j].unhealthy) && (s > 0 ==> !polls[s - 1].unhealthy)
  {
    if i > 0 && polls[i - 1].unhealthy then RunStart(polls, i - 1) else i
  }

  function Elapsed(polls: seq<Poll>, i: nat): int
    requires i < |polls| && polls[i].unhealthy
  {
    Trunc(polls[i].now - polls[RunStart(polls, i)].now)
  }

  /** Some poll of the run, from its start up to poll i, reached the threshold. */
  predicate Reached(polls: seq<Poll>, threshold: int, i: nat)
    requires i < |polls| && polls[i].unhealthy
  {
    exists j | RunStart(polls, i) <= j <= i :: Elapsed(polls, j) >= threshold
  }

  predicate Continues(polls: seq<Poll>, i: nat)
    requires i < |polls|
  {
    i > 0 && polls[i - 1].unhealthy
  }

  /** The alarm belongs at the first poll of a run that reaches the threshold, the recovery at the
      first healthy poll after a run that did. */
  function Due(polls: seq<Poll>, threshold: int, i: nat): Signal
    requires i < |polls|
  {
    if polls[i].unhealthy then
      if Elapsed(polls, i) >= threshold && !(Continues(polls, i) && Reached(polls, threshold, i - 1))
      then Alarm(Elapsed(polls, i)) else Silent
    else if Continues(polls, i) && Reached(polls, threshold, i - 1)
    then Recovery(Trunc(polls[i].now - polls[RunStart(polls, i - 1)].now)) else Silent
  }

  lemma SameRun(polls: seq<Poll>, i: nat)
    requires i < |polls| && polls[i].unhealthy && Continues(polls, i)
    ensures RunStart(polls, i) == RunStart(polls, i - 1)
  {
  }

  lemma {:induction false} RunStartWithin(polls: seq<Poll>, i: nat, j: nat)
    requires i < |polls| && polls[i].unhealthy && RunStart(polls, i) <= j <= i
    ensures RunStart(polls, j) == RunStart(polls, i)
  {
  }

  lemma ReachedStep(polls: seq<Poll>, threshold: int, i: nat)
    requires i < |polls| && polls[i].unhealthy
    ensures Reached(polls, threshold, i) <==>
            Elapsed(polls, i) >= threshold || (Continues(polls, i) && Reached(polls, threshold, i - 1))
  {
  }

  /** The machine's state is a fact about the trace: when the current run began, and whether it has
      reached the threshold. */
  lemma {:induction false} StateIsTrace(polls: seq<Poll>, threshold: int, n: nat)
    requires n <= |polls|
    ensures var e := After(polls[..n], threshold);
            if n > 0 && polls[n - 1].unhealthy
            then e == Episode(Some(polls[RunStart(polls, n - 1)].now), Reached(polls, threshold, n - 1))
            else e == QUIET
  {
    if n == 0 {
    } else {
      assert polls[..n][..n - 1] == polls[..n - 1];
      StateIsTrace(polls, threshold, n - 1);
      if polls[n - 1].unhealthy {
        ReachedStep(polls, threshold, n - 1);
      }
    }
  }

  /** On every trace, even with the clock going backwards, the machine says at every poll exactly
      what is due. */
  lemma SaysWhatIsDue(polls: seq<Poll>, threshold: int, i: nat)
    requires i < |polls|
    ensures Said(polls, threshold, i) == Due(polls, threshold, i)
  {
    StateIsTrace(polls, threshold, i);
    if polls[i].unhealthy && Continues(polls, i) {
      SameRun(polls, i);
    }
  }

  /** A run sounds at most one alarm. */
  lemma OneAlarmPerRun(polls: seq<Poll>, threshold: int, i: nat, k: nat)
    requires i < k < |polls| && polls[k].unhealthy && RunStart(polls, k) <= i
    requires Said(polls, threshold, i).Alarm?
    ensures Said(polls, threshold, k) == Silent
  {
    SaysWhatIsDue(polls, threshold, i);
    SaysWhatIsDue(polls, threshold, k);
    SameRun(polls, k);
    assert Elapsed(polls, i) >= threshold;
  }

  /** A run that reaches the threshold does sound one. */
  lemma {:induction false} LongRunAlarms(polls: seq<Poll>, threshold: int, i: nat) returns (k: nat)
    requires i < |polls| && polls[i].unhealthy && Reached(polls, threshold, i)
    ensures RunStart(polls, i) <= k <= i && Said(polls, threshold, k).Alarm?
  {
    SaysWhatIsDue(polls, threshold, i);
    if Continues(polls, i) && Reached(polls, threshold, i - 1) {
      SameRun(polls, i);
      k := LongRunAlarms(polls, threshold, i - 1);
    } else {
      ReachedStep(polls, threshold, i);
      k := i;
    }
  }

  /** Alarms alternate: after an alarm comes a recovery before the next alarm. */
  lemma RecoveryBetweenAlarms(polls: seq<Poll>, threshold: int, i: nat, k: nat) returns (j: nat)
    requires i < k < |polls| && Said(polls, threshold, i).Alarm? && Said(polls, threshold, k).Alarm?
    ensures i < j < k && Said(polls, threshold, j).Recovery?
  {
    SaysWhatIsDue(polls, threshold, i);
    SaysWhatIsDue(polls, threshold, k);
    if RunStart(polls, k) <= i {
      OneAlarmPerRun(polls, threshold, i, k);
    }
    j := i + 1;
    while polls[j].unhealthy
      invariant i < j <= RunStart(polls, k) && (forall m | i <= m < j :: polls[m].unhealthy)
      invariant RunStart(polls, j - 1) == RunStart(polls, i)
      decreases k - j
    {
      SameRun(polls, j);
      if j == RunStart(polls, k) {
        RunStartWithin(polls, k, j);
      }
      j := j + 1;
    }
    assert Elapsed(polls, i) >= threshold && Reached(polls, threshold, j - 1);
    SaysWhatIsDue(polls, threshold, j);
  }

  /** ... and a recovery answers an alarm of the run just ended, so no two come without one between. */
  lemma AlarmBeforeRecovery(polls: seq<Poll>, threshold: int, k: nat) returns (j: nat)
    requires k < |polls| && Said(polls, threshold, k).Recovery?
    ensures j < k && Said(polls, threshold, j).Alarm? && forall m | j <= m < k :: polls[m].unhealthy
    ensures forall m | j < m < k :: Said(polls, threshold, m) == Silent
  {
    SaysWhatIsDue(polls, threshold, k);
    j := LongRunAlarms(polls, threshold, k - 1);
    forall m | j < m < k ensures Said(polls, threshold, m) == Silent {
      RunStartWithin(polls, k - 1, m);
      OneAlarmPerRun(polls, threshold, j, m);
    }
  }

  predicate ClockRuns(polls: seq<Poll>) {
    forall i, j | 0 <= i <= j < |polls| :: polls[i].now <= polls[j].now
  }

  lemma ElapsedReaches(polls: seq<Poll>, threshold: int, i: nat, j: nat)
    requires i < |polls| && polls[i].unhealthy && ClockRuns(polls) && RunStart(polls, i) <= j <= i
    ensures Elapsed(polls, j) >= threshold <==> polls[j].now - polls[RunStart(polls, i)].now >= threshold as real
  {
    RunStartWithin(polls, i, j);
    TruncReaches(polls[j].now - polls[RunStart(polls, i)].now, threshold);
  }

  /** With a clock that never goes back, an alarm means the elapsed time is at the threshold in exact
      seconds, and was below it at every earlier poll of the run; a run below it is silent. */
  lemma AlarmIsFirstCrossing(polls: seq<Poll>, threshold: int, i: nat)
    requires i < |polls| && polls[i].unhealthy && ClockRuns(polls)
    ensures Said(polls, threshold, i).Alarm? <==>
            var start := polls[RunStart(polls, i)].now;
            && polls[i].now - start >= threshold as real
            && forall j | RunStart(polls, i) <= j < i :: polls[j].now - start < threshold as real
  {
    hide Said, Elapsed, ClockRuns;
    SaysWhatIsDue(polls, threshold, i);
    forall j | RunStart(polls, i) <= j <= i
      ensures Elapsed(polls, j) >= threshold <==> polls[j].now - polls[RunStart(polls, i)].now >= threshold as real
    {
      ElapsedReaches(polls, threshold, i, j);
    }
    if Continues(polls, i) {
      SameRun(polls, i);
    }
  }

  lemma TruncReaches(x: real, threshold: int)
    requires x >= 0.0
    ensures Trunc(x) >= threshold <==> x >= threshold as real
  {
  }

  // ---------------------------------------------------------------- signals that get lost

  /** What reaches the outside when some polls lose what they say. */
  function Delivered(polls: seq<Poll>, lost: seq<bool>, threshold: int, i: nat): Signal
    requires |lost| == |polls| && i < |polls|
  {
    if lost[i] then Silent else Said(polls, threshold, i)
  }

  /** A run that reaches the threshold delivers an alarm exactly when the poll that says it is not lost;
      it never delivers two. */
  lemma RunDeliversAlarmIff(polls: seq<Poll>, lost: seq<bool>, threshold: int, i: nat) returns (k: nat)
    requires |lost| == |polls| && i < |polls| && polls[i].unhealthy && Reached(polls, threshold, i)
    ensures RunStart(polls, i) <= k <= i && Said(polls, threshold, k).Alarm?
    ensures (exists j | RunStart(polls, i) <= j <= i :: Delivered(polls, lost, threshold, j).Alarm?) <==> !lost[k]
    ensures forall j | RunStart(polls, i) <= j <= i && Delivered(polls, lost, threshold, j).Alarm? :: j == k
  {
    hide Said, Reached;
    k := LongRunAlarms(polls, threshold, i);
    forall j | RunStart(polls, i) <= j <= i && j != k ensures !Said(polls, threshold, j).Alarm? {
      RunStartWithin(polls, i, j);
      RunStartWithin(polls, i, k);
      if j < k {
        if Said(polls, threshold, j).Alarm? {
          OneAlarmPerRun(polls, threshold, j, k);
        }
      } else {
        OneAlarmPerRun(polls, threshold, k, j);
      }
    }
    assert !lost[k] ==> Delivered(polls, lost, threshold, k).Alarm?;
  }

  /** A delivered recovery answers an alarm of the run that just ended, and nothing was said between;
      that alarm was delivered exactly when its poll was not lost. */
  lemma RecoveryAnswersDeliveredIff(polls: seq<Poll>, lost: seq<bool>, threshold: int, k: nat) returns (j: nat)
    requires |lost| == |polls| && k < |polls| && Delivered(polls, lost, threshold, k).Recovery?
    ensures j < k && Said(polls, threshold, j).Alarm? && (forall m | j <= m < k :: polls[m].unhealthy)
    ensures forall m | j < m < k :: Delivered(polls, lost, threshold, m) == Silent
    ensures Delivered(polls, lost, threshold, j).Alarm? <==> !lost[j]
  {
    j := AlarmBeforeRecovery(polls, threshold, k);
  }

  /** A recovery without an alarm before it: the poll that crosses the threshold is lost, the next healthy
      one is not. */
  lemma RecoveryWithoutAlarm(threshold: nat)
    ensures var polls := [Poll(true, 0.0), Poll(true, threshold as real), Poll(false, threshold as real)];
            var lost := [true, true, false];
            && Delivered(polls, lost, threshold, 0) == Delivered(polls, lost, threshold, 1) == Silent
            && Delivered(polls, lost, threshold, 2).Recovery?
  {
    var polls := [Poll(true, 0.0), Poll(true, threshold as real), Poll(false, threshold as real)];
    SaysWhatIsDue(polls, threshold, 2);
    assert RunStart(polls, 1) == 0;
    assert Elapsed(polls, 1) >= threshold;
    assert Reached(polls, threshold, 1);
  }
}
