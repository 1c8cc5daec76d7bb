/** The auto-heal rate limiter of watchdog/autoheal.py: two rolling-window deques of stamps, a
    cooldown table, and reservations that may be rolled back after other threads have reserved. */
module Autoheal {
  import opened Options

  const WINDOW: int := 3600

  datatype Caps = Caps(perService: int, overall: int)

  datatype Ledger = Ledger(perService: map<string, seq<int>>, overall: seq<int>, disabledUntil: map<string, int>)

  datatype Verdict = Granted | Disabled | GlobalRateLimited | RateLimited

  // ---------------------------------------------------------------- the ledger operations

  function Trimmed(dq: seq<int>, now: int): seq<int> {
    if dq != [] && dq[0] < now - WINDOW then Trimmed(dq[1..], now) else dq
  }

  function DequeOf(l: Ledger, service: string): seq<int> {
    if service in l.perService then l.perService[service] else []
  }

  function CheckAndReserve(l: Ledger, caps: Caps, service: string, now: int): (Ledger, Verdict) {
    if service in l.disabledUntil && now < l.disabledUntil[service] then (l, Disabled)
    else
      var cooled := l.disabledUntil - {service};
      var overall := Trimmed(l.overall, now);
      if |overall| >= caps.overall then (Ledger(l.perService, overall, cooled), GlobalRateLimited)
      else
        var dq := Trimmed(DequeOf(l, service), now);
        if |dq| >= caps.perService then (Ledger(l.perService[service := dq], overall, cooled), RateLimited)
        else (Ledger(l.perService[service := dq + [now]], overall + [now], cooled), Granted)
  }

  predicate EndsWith(dq: seq<int>, stamp: int) {
    dq != [] && dq[|dq| - 1] == stamp
  }

  function Unstamped(dq: seq<int>, stamp: int): seq<int> {
    if EndsWith(dq, stamp) then dq[..|dq| - 1] else dq
  }

  function Rollback(l: Ledger, service: string, now: int): Ledger {
    var dq := DequeOf(l, service);
    l.(perService := if EndsWith(dq, now) then l.perService[service := Unstamped(dq, now)] else l.perService,
       overall := Unstamped(l.overall, now))
  }

  function Cooldown(l: Ledger, service: string, now: int): Ledger {
    l.(disabledUntil := l.disabledUntil[service := now + WINDOW])
  }

  /** A rollback that nothing came between leaves both deques as if the stamp had never been there. */
  lemma RollbackUndoes(l: Ledger, caps: Caps, service: string, now: int)
    requires CheckAndReserve(l, caps, service, now).1 == Granted
    ensures var l' := Rollback(CheckAndReserve(l, caps, service, now).0, service, now);
            && l'.overall == Trimmed(l.overall, now)
            && l'.perService == l.perService[service := Trimmed(DequeOf(l, service), now)]
            && l'.disabledUntil == l.disabledUntil - {service}
  {
    var dq, overall := Trimmed(DequeOf(l, service), now), Trimmed(l.overall, now);
    UnstampUndoes(dq, now);
    UnstampUndoes(overall, now);
    assert l.perService[service := dq + [now]][service := dq] == l.perService[service := dq];
  }

  lemma UnstampUndoes(dq: seq<int>, now: int)
    ensures EndsWith(dq + [now], now) && Unstamped(dq + [now], now) == dq
  {
  }

  // ---------------------------------------------------------------- the module state

  /** How the force-update call ends. One that raises may still have landed, its reply lost. */
  datatype Update = Answered | Unanswered(landed: bool)

  datatype HealKind = Skipped | Rejected(why: Verdict) | DockerError | Started | Verified | VerifyFailed

  class AutohealState {
    var healsPerService: map<string, seq<int>>
    var globalHeals: seq<int>
    var disabledUntil: map<string, int>

    function Snapshot(): Ledger
      reads this
    {
      Ledger(healsPerService, globalHeals, disabledUntil)
    }

    constructor ()
      ensures Snapshot() == Ledger(map[], [], map[])
    {
      healsPerService, globalHeals, disabledUntil := map[], [], map[];
    }

    static method Trim(dq: seq<int>, now: int) returns (rest: seq<int>)
      ensures rest == Trimmed(dq, now)
    {
      var cutoff := now - WINDOW;
      rest := dq;
      while rest != [] && rest[0] < cutoff
        invariant Trimmed(rest, now) == Trimmed(dq, now)
        decreases |rest|
      {
        rest := rest[1..];
      }
    }

    method Reserve(caps: Caps, service: string, now: int) returns (verdict: Verdict)
      modifies this
      ensures (Snapshot(), verdict) == CheckAndReserve(old(Snapshot()), caps, service, now)
    {
      if service in disabledUntil {
        if now < disabledUntil[service] {
          return Disabled;
        }
        disabledUntil := disabledUntil - {service};
      }
      assert disabledUntil == old(disabledUntil) - {service};
      globalHeals := Trim(globalHeals, now);
      if |globalHeals| >= caps.overall {
        return GlobalRateLimited;
      }
      var dq := if service in healsPerService then healsPerService[service] else [];
      dq := Trim(dq, now);
      healsPerService := healsPerService[service := dq];
      if |dq| >= caps.perService {
        return RateLimited;
      }
      healsPerService := healsPerService[service := dq + [now]];
      globalHeals := globalHeals + [now];
      assert healsPerService == old(healsPerService)[service := dq + [now]];
      return Granted;
    }

    method RollbackReservation(service: string, now: int)
      modifies this
      ensures Snapshot() == Rollback(old(Snapshot()), service, now)
    {
      if service in healsPerService {
        var dq := healsPerService[service];
        if dq != [] && dq[|dq| - 1] == now {
          healsPerService := healsPerService[service := dq[..|dq| - 1]];
        }
      }
      if globalHeals != [] && globalHeals[|globalHeals| - 1] == now {
        globalHeals := globalHeals[..|globalHeals| - 1];
      }
    }

    /** One attempt no other thread interrupts. `stillFailing` is what the verify step found (None without
        one). An update that raises costs no quota, whether it landed or not. */
    method TryHeal(caps: Caps, enabled: bool, allowlisted: bool, service: string, now: int,
                   update: Update, stillFailing: Option<bool>) returns (kind: HealKind)
      modifies this
      ensures kind == Skipped <==> !enabled || !allowlisted
      ensures kind == Skipped ==> Snapshot() == old(Snapshot())
      ensures kind != Skipped ==>
                var (l, verdict) := CheckAndReserve(old(Snapshot()), caps, service, now);
                && (kind.Rejected? <==> verdict != Granted)
                && (kind.Rejected? ==> kind.why == verdict && Snapshot() == l)
                && (kind == DockerError <==> verdict == Granted && update.Unanswered?)
                && (kind == VerifyFailed <==> verdict == Granted && update.Answered? && stillFailing == Some(true))
                && (kind == VerifyFailed ==> Snapshot() == Cooldown(l, service, now))
                && (kind == Started || kind == Verified ==> Snapshot() == l)
      ensures kind == DockerError ==>
                && globalHeals == Trimmed(old(globalHeals), now)
                && healsPerService == old(healsPerService)[service := Trimmed(old(DequeOf(Snapshot(), service)), now)]
    {
      if !enabled || !allowlisted {
        return Skipped;
      }
      ghost var before := Snapshot();
      var verdict := Reserve(caps, service, now);
      if verdict != Granted {
        return Rejected(verdict);
      }
      if update.Unanswered? {
        RollbackReservation(service, now);
        RollbackUndoes(before, caps, service, now);
        return DockerError;
      }
      match stillFailing
      case None => return Started;
      case Some(false) => return Verified;
      case Some(true) =>
        disabledUntil := disabledUntil[service := now + WINDOW];
        return VerifyFailed;
    }
  }

  // ---------------------------------------------------------------- interleaved attempts

  datatype Phase = Reserved | RolledBack(landed: bool) | Landed | Healthy | StillFailing

  datatype Attempt = Attempt(service: string, stamp: int, phase: Phase)

  /** `attempts` lists the granted reservations in order, `tried` the stamps of every reservation
      tried, granted or not. */
  datatype World = World(ledger: Ledger, attempts: seq<Attempt>, tried: set<int>)

  /** A locked section of some thread; `id` names the granted attempt it belongs to. A thread reads
      the clock before it takes the lock, so `now` need not grow from one Reserve to the next. A Fail is
      an update that raised; `landed` says whether it took effect all the same. */
  datatype Event =
    | Reserve(service: string, now: int)
    | Land(id: nat)
    | Fail(id: nat, landed: bool)
    | Settle(id: nat, stillFailing: bool)

  const START: World := World(Ledger(map[], [], map[]), [], {})

  predicate Enabled(w: World, e: Event) {
    match e
    case Reserve(_, _) => true
    case Land(id) => id < |w.attempts| && w.attempts[id].phase == Reserved
    case Fail(id, _) => id < |w.attempts| && w.attempts[id].phase == Reserved
    case Settle(id, _) => id < |w.attempts| && w.attempts[id].phase == Landed
  }

  function Next(w: World, caps: Caps, e: Event): World
    requires Enabled(w, e)
  {
    match e
    case Reserve(service, now) =>
      var (l, verdict) := CheckAndReserve(w.ledger, caps, service, now);
      World(l, if verdict == Granted then w.attempts + [Attempt(service, now, Reserved)] else w.attempts,
            w.tried + {now})
    case Land(id) => w.(attempts := Move(w.attempts, id, Landed))
    case Fail(id, landed) =>
      w.(ledger := Rollback(w.ledger, w.attempts[id].service, w.attempts[id].stamp),
         attempts := Move(w.attempts, id, RolledBack(landed)))
    case Settle(id, stillFailing) =>
      w.(ledger := if stillFailing then Cooldown(w.ledger, w.attempts[id].service, w.attempts[id].stamp) else w.ledger,
         attempts := Move(w.attempts, id, if stillFailing then StillFailing else Healthy))
  }

  function Move(attempts: seq<Attempt>, id: nat, phase: Phase): seq<Attempt>
    requires id < |attempts|
  {
    attempts[id := attempts[id].(phase := phase)]
  }

  predicate IsRun(w: World, caps: Caps, run: seq<Event>)
    decreases |run|
  {
    run == [] || (Enabled(w, run[0]) && IsRun(Next(w, caps, run[0]), caps, run[1..]))
  }

  function After(w: World, caps: Caps, run: seq<Event>): World
    requires IsRun(w, caps, run)
    decreases |run|
  {
    if run == [] then w else After(Next(w, caps, run[0]), caps, run[1..])
  }

  // ---------------------------------------------------------------- counting

  function Count(attempts: seq<Attempt>, p: Attempt -> bool): nat {
    if attempts == [] then 0
    else Count(attempts[..|attempts| - 1], p) + (if p(attempts[|attempts| - 1]) then 1 else 0)
  }

  lemma {:induction false} CountAppend(attempts: seq<Attempt>, a: Attempt, p: Attempt -> bool)
    ensures Count(attempts + [a], p) == Count(attempts, p) + (if p(a) then 1 else 0)
  {
  }

  lemma {:induction false} CountMove(attempts: seq<Attempt>, id: nat, a: Attempt, p: Attempt -> bool)
    requires id < |attempts|
    ensures Count(attempts[id := a], p) + (if p(attempts[id]) then 1 else 0) == Count(attempts, p) + (if p(a) then 1 else 0)
  {
    var n := |attempts| - 1;
    if id < n {
      assert attempts[id := a][..n] == attempts[..n][id := a];
      CountMove(attempts[..n], id, a, p);
    } else {
      assert attempts[id := a][..n] == attempts[..n];
    }
  }

  lemma {:induction false} CountLe(attempts: seq<Attempt>, p: Attempt -> bool, q: Attempt -> bool)
    requires forall a | a in attempts :: p(a) ==> q(a)
    ensures Count(attempts, p) <= Count(attempts, q)
  {
    if attempts == [] {
    } else {
      CountLe(attempts[..|attempts| - 1], p, q);
    }
  }

  lemma {:induction false} CountSome(attempts: seq<Attempt>, id: nat, p: Attempt -> bool)
    requires id < |attempts| && p(attempts[id])
    ensures Count(attempts, p) >= 1
  {
    if id == |attempts| - 1 {
    } else {
      CountSome(attempts[..|attempts| - 1], id, p);
    }
  }

  predicate Open(a: Attempt) {
    a.phase == Reserved || a.phase == Landed
  }

  predicate Holds(a: Attempt) {
    !a.phase.RolledBack?
  }

  function LiveOn(service: string, stamp: int): Attempt -> bool {
    (a: Attempt) => Holds(a) && a.service == service && a.stamp == stamp
  }

  function LiveAt(stamp: int): Attempt -> bool {
    (a: Attempt) => Holds(a) && a.stamp == stamp
  }

  /** Entries for this stamp in the service's deque. */
  function Copies(perService: map<string, seq<int>>, service: string, stamp: int): nat {
    if service in perService then multiset(perService[service])[stamp] else 0
  }

  lemma {:induction false} TrimmedCopies(dq: seq<int>, now: int, stamp: int)
    ensures stamp >= now - WINDOW ==> multiset(Trimmed(dq, now))[stamp] == multiset(dq)[stamp]
    ensures multiset(Trimmed(dq, now))[stamp] <= multiset(dq)[stamp]
  {
    if dq == [] || dq[0] >= now - WINDOW {
    } else {
      TrimmedCopies(dq[1..], now, stamp);
      assert dq == [dq[0]] + dq[1..];
    }
  }

  lemma UnstampedCopies(dq: seq<int>, at: int, stamp: int)
    ensures multiset(Unstamped(dq, at))[stamp] == multiset(dq)[stamp] - (if EndsWith(dq, at) && stamp == at then 1 else 0)
  {
    if EndsWith(dq, at) {
      assert dq == dq[..|dq| - 1] + [at];
    }
  }

  // ---------------------------------------------------------------- the ledger never under-counts

  /** No reservation was ever tried more than a window after this stamp. */
  predicate Recent(stamp: int, tried: set<int>) {
    forall n | n in tried :: stamp >= n - WINDOW
  }

  /** Both deques hold at least as many entries for a recent stamp as attempts that reserved it and
      were not rolled back. */
  ghost predicate NeverUnderCounts(w: World) {
    forall stamp | Recent(stamp, w.tried) ::
      && Count(w.attempts, LiveAt(stamp)) <= multiset(w.ledger.overall)[stamp]
      && forall service :: Count(w.attempts, LiveOn(service, stamp)) <= Copies(w.ledger.perService, service, stamp)
  }

  lemma ReserveCounts(w: World, caps: Caps, service: string, now: int)
    requires NeverUnderCounts(w)
    ensures NeverUnderCounts(Next(w, caps, Reserve(service, now)))
  {
    hide Count, Trimmed;
    var w' := Next(w, caps, Reserve(service, now));
    var l, l' := w.ledger, w'.ledger;
    var a := Attempt(service, now, Reserved);
    forall stamp | Recent(stamp, w'.tried)
      ensures Count(w'.attempts, LiveAt(stamp)) <= multiset(l'.overall)[stamp]
      ensures forall x :: Count(w'.attempts, LiveOn(x, stamp)) <= Copies(l'.perService, x, stamp)
    {
      assert now in w'.tried && Recent(stamp, w.tried);
      TrimmedCopies(l.overall, now, stamp);
      TrimmedCopies(DequeOf(l, service), now, stamp);
      CountAppend(w.attempts, a, LiveAt(stamp));
      forall x ensures Count(w'.attempts, LiveOn(x, stamp)) <= Copies(l'.perService, x, stamp) {
        CountAppend(w.attempts, a, LiveOn(x, stamp));
        assert Count(w.attempts, LiveOn(x, stamp)) <= Copies(l.perService, x, stamp);
      }
    }
  }

  lemma FailCounts(w: World, caps: Caps, id: nat, landed: bool)
    requires NeverUnderCounts(w) && Enabled(w, Fail(id, landed))
    ensures NeverUnderCounts(Next(w, caps, Fail(id, landed)))
  {
    hide Count;
    var w' := Next(w, caps, Fail(id, landed));
    var l, l' := w.ledger, w'.ledger;
    var a := w.attempts[id];
    forall stamp | Recent(stamp, w'.tried)
      ensures Count(w'.attempts, LiveAt(stamp)) <= multiset(l'.overall)[stamp]
      ensures forall x :: Count(w'.attempts, LiveOn(x, stamp)) <= Copies(l'.perService, x, stamp)
    {
      UnstampedCopies(l.overall, a.stamp, stamp);
      UnstampedCopies(DequeOf(l, a.service), a.stamp, stamp);
      CountMove(w.attempts, id, a.(phase := RolledBack(landed)), LiveAt(stamp));
      forall x ensures Count(w'.attempts, LiveOn(x, stamp)) <= Copies(l'.perService, x, stamp) {
        CountMove(w.attempts, id, a.(phase := RolledBack(landed)), LiveOn(x, stamp));
        assert Count(w.attempts, LiveOn(x, stamp)) <= Copies(l.perService, x, stamp);
      }
    }
  }

  lemma StepCounts(w: World, caps: Caps, e: Event)
    requires NeverUnderCounts(w) && Enabled(w, e)
    ensures NeverUnderCounts(Next(w, caps, e))
  {
    match e
    case Reserve(service, now) => ReserveCounts(w, caps, service, now);
    case Fail(id, landed) => FailCounts(w, caps, id, landed);
    case Land(id) => SettleCounts(w, caps, e, id);
    case Settle(id, _) => SettleCounts(w, caps, e, id);
  }

  lemma SettleCounts(w: World, caps: Caps, e: Event, id: nat)
    requires NeverUnderCounts(w) && Enabled(w, e) && (e == Land(id) || (e.Settle? && e.id == id))
    ensures NeverUnderCounts(Next(w, caps, e))
  {
    var w' := Next(w, caps, e);
    forall stamp | Recent(stamp, w'.tried)
      ensures Count(w'.attempts, LiveAt(stamp)) <= multiset(w'.ledger.overall)[stamp]
      ensures forall x :: Count(w'.attempts, LiveOn(x, stamp)) <= Copies(w'.ledger.perService, x, stamp)
    {
      CountMove(w.attempts, id, w'.attempts[id], LiveAt(stamp));
      forall x ensures Count(w'.attempts, LiveOn(x, stamp)) <= Copies(w'.ledger.perService, x, stamp) {
        CountMove(w.attempts, id, w'.attempts[id], LiveOn(x, stamp));
        assert Count(w.attempts, LiveOn(x, stamp)) <= Copies(w.ledger.perService, x, stamp);
      }
    }
  }

  /** In every run, whatever the interleaving and even with stale stamps: an attempt whose update has not
      raised is still in both deques, as often as it reserved, while its stamp is in the window. */
  lemma {:induction false} LedgerNeverUnderCounts(w: World, caps: Caps, run: seq<Event>)
    requires NeverUnderCounts(w) && IsRun(w, caps, run)
    ensures NeverUnderCounts(After(w, caps, run))
    decreases |run|
  {
    if run == [] {
    } else {
      StepCounts(w, caps, run[0]);
      LedgerNeverUnderCounts(Next(w, caps, run[0]), caps, run[1..]);
    }
  }

  // ---------------------------------------------------------------- stamps in order

  predicate Sorted(dq: seq<int>) {
    forall i, j | 0 <= i < j < |dq| :: dq[i] <= dq[j]
  }

  lemma {:induction false} TrimmedSorted(dq: seq<int>, now: int)
    requires Sorted(dq)
    ensures Sorted(Trimmed(dq, now)) && forall s | s in Trimmed(dq, now) :: s in dq && s >= now - WINDOW
  {
    if dq == [] || dq[0] >= now - WINDOW {
    } else {
      TrimmedSorted(dq[1..], now);
    }
  }

  lemma SortedAppend(dq: seq<int>, now: int)
    requires Sorted(dq) && forall s | s in dq :: s <= now
    ensures Sorted(dq + [now])
  {
    forall i, j | 0 <= i < j < |dq + [now]| ensures (dq + [now])[i] <= (dq + [now])[j] {
      assert dq[i] in dq;
    }
  }

  /** Every reservation is tried with a stamp no earlier than those tried before. */
  predicate StampedInOrder(w: World, e: Event) {
    e.Reserve? ==> forall n | n in w.tried :: n <= e.now
  }

  predicate IsOrderedRun(w: World, caps: Caps, run: seq<Event>)
    requires IsRun(w, caps, run)
    decreases |run|
  {
    run == [] || (StampedInOrder(w, run[0]) && IsOrderedRun(Next(w, caps, run[0]), caps, run[1..]))
  }

  ghost predicate InOrder(w: World) {
    && Sorted(w.ledger.overall) && (forall s | s in w.ledger.overall :: s in w.tried)
    && (forall x | x in w.ledger.perService ::
          Sorted(w.ledger.perService[x]) && forall s | s in w.ledger.perService[x] :: s in w.tried)
    && (forall a | a in w.attempts :: a.stamp in w.tried)
  }

  lemma StepInOrder(w: World, caps: Caps, e: Event)
    requires InOrder(w) && Enabled(w, e) && StampedInOrder(w, e)
    ensures InOrder(Next(w, caps, e))
  {
    match e
    case Reserve(service, now) =>
      TrimmedSorted(w.ledger.overall, now);
      TrimmedSorted(DequeOf(w.ledger, service), now);
      SortedAppend(Trimmed(w.ledger.overall, now), now);
      SortedAppend(Trimmed(DequeOf(w.ledger, service), now), now);
    case Fail(id, landed) =>
      var dq := DequeOf(w.ledger, w.attempts[id].service);
      assert forall s | s in Unstamped(dq, w.attempts[id].stamp) :: s in dq;
      MovedStamps(w.attempts, id, RolledBack(landed));
    case Land(id) => MovedStamps(w.attempts, id, Landed);
    case Settle(id, stillFailing) => MovedStamps(w.attempts, id, if stillFailing then StillFailing else Healthy);
  }

  lemma MovedStamps(attempts: seq<Attempt>, id: nat, phase: Phase)
    requires id < |attempts|
    ensures forall a | a in Move(attempts, id, phase) :: exists b | b in attempts :: b.stamp == a.stamp
  {
  }

  // ---------------------------------------------------------------- the global deque covers the services

  ghost function Pick(keys: set<string>): (k: string)
    requires keys != {}
    ensures k in keys
  {
    var k :| k in keys; k
  }

  /** Entries for this stamp in all per-service deques together. */
  ghost function Total(perService: map<string, seq<int>>, stamp: int): nat
    decreases |perService|
  {
    if perService == map[] then 0
    else
      var k := Pick(perService.Keys);
      Copies(perService, k, stamp) + Total(perService - {k}, stamp)
  }

  lemma {:induction false} TotalSplit(m: map<string, seq<int>>, k: string, stamp: int)
    requires k in m
    ensures Total(m, stamp) == Copies(m, k, stamp) + Total(m - {k}, stamp)
    decreases |m|
  {
    var k' := Pick(m.Keys);
    if k == k' {
    } else {
      TotalSplit(m - {k'}, k, stamp);
      TotalSplit(m - {k}, k', stamp);
      assert m - {k'} - {k} == m - {k} - {k'};
    }
  }

  lemma TotalUpdate(m: map<string, seq<int>>, k: string, dq: seq<int>, stamp: int)
    ensures Total(m[k := dq], stamp) + Copies(m, k, stamp) == Total(m, stamp) + multiset(dq)[stamp]
  {
    TotalSplit(m[k := dq], k, stamp);
    if k in m {
      TotalSplit(m, k, stamp);
    }
    assert m[k := dq] - {k} == m - {k};
    if k !in m {
      assert m - {k} == m;
    }
  }

  ghost predicate Dominates(l: Ledger, stamp: int) {
    Total(l.perService, stamp) <= multiset(l.overall)[stamp]
  }

  ghost predicate GlobalDominates(w: World) {
    forall stamp | Recent(stamp, w.tried) :: Dominates(w.ledger, stamp)
  }

  /** A rollback breaks the cover of its stamp exactly when it pops the global entry, finds its own
      service's entry buried, and there was no entry to spare. */
  lemma RollbackDominatesIff(l: Ledger, service: string, now: int)
    requires Dominates(l, now)
    ensures Dominates(Rollback(l, service, now), now) <==>
            !(EndsWith(l.overall, now) && !EndsWith(DequeOf(l, service), now) &&
              Total(l.perService, now) == multiset(l.overall)[now])
  {
    UnstampedCopies(l.overall, now, now);
    RollbackTotal(l, service, now, now);
  }

  lemma RollbackTotal(l: Ledger, service: string, now: int, stamp: int)
    ensures Total(Rollback(l, service, now).perService, stamp) ==
            Total(l.perService, stamp) - (if EndsWith(DequeOf(l, service), now) && stamp == now then 1 else 0)
  {
    var dq := DequeOf(l, service);
    UnstampedCopies(dq, now, stamp);
    TotalUpdate(l.perService, service, Unstamped(dq, now), stamp);
  }

  lemma ReserveDominates(w: World, caps: Caps, service: string, now: int)
    requires GlobalDominates(w)
    ensures GlobalDominates(Next(w, caps, Reserve(service, now)))
  {
    var w' := Next(w, caps, Reserve(service, now));
    var dq := Trimmed(DequeOf(w.ledger, service), now);
    forall stamp | Recent(stamp, w'.tried) ensures Dominates(w'.ledger, stamp) {
      assert now in w'.tried && Recent(stamp, w.tried);
      TrimmedCopies(w.ledger.overall, now, stamp);
      TrimmedCopies(DequeOf(w.ledger, service), now, stamp);
      TotalUpdate(w.ledger.perService, service, dq, stamp);
      TotalUpdate(w.ledger.perService, service, dq + [now], stamp);
    }
  }

  lemma FailDominates(w: World, caps: Caps, id: nat, landed: bool)
    requires GlobalDominates(w) && NeverUnderCounts(w) && InOrder(w) && Enabled(w, Fail(id, landed))
    ensures GlobalDominates(Next(w, caps, Fail(id, landed)))
  {
    var w' := Next(w, caps, Fail(id, landed));
    var l, a := w.ledger, w.attempts[id];
    forall stamp | Recent(stamp, w'.tried) ensures Dominates(w'.ledger, stamp) {
      UnstampedCopies(l.overall, a.stamp, stamp);
      RollbackTotal(l, a.service, a.stamp, stamp);
      if stamp == a.stamp && EndsWith(l.overall, stamp) {
        NotBuried(w, id);
      }
    }
  }

  /** With stamps in order, a reservation still last in the global deque is last in its service's. */
  lemma NotBuried(w: World, id: nat)
    requires GlobalDominates(w) && NeverUnderCounts(w) && InOrder(w) && Enabled(w, Fail(id, false))
    requires Recent(w.attempts[id].stamp, w.tried) && EndsWith(w.ledger.overall, w.attempts[id].stamp)
    ensures EndsWith(DequeOf(w.ledger, w.attempts[id].service), w.attempts[id].stamp)
  {
    var l, a := w.ledger, w.attempts[id];
    CountSome(w.attempts, id, LiveOn(a.service, a.stamp));
    assert Copies(l.perService, a.service, a.stamp) >= 1;
    var dq := l.perService[a.service];
    assert a.stamp in multiset(dq);
    var last := dq[|dq| - 1];
    assert last in multiset(dq);
    assert Recent(last, w.tried) && Dominates(l, last);
    TotalSplit(l.perService, a.service, last);
    assert last in multiset(l.overall);
  }

  lemma StepDominates(w: World, caps: Caps, e: Event)
    requires GlobalDominates(w) && NeverUnderCounts(w) && InOrder(w) && Enabled(w, e)
    ensures GlobalDominates(Next(w, caps, e))
  {
    match e
    case Reserve(service, now) => ReserveDominates(w, caps, service, now);
    case Fail(id, landed) => FailDominates(w, caps, id, landed);
    case Land(id) => assert forall stamp :: Dominates(Next(w, caps, e).ledger, stamp) <==> Dominates(w.ledger, stamp);
    case Settle(id, _) => assert forall stamp :: Dominates(Next(w, caps, e).ledger, stamp) <==> Dominates(w.ledger, stamp);
  }

  /** With stamps in order, for every stamp in the window the global deque holds at least as many
      entries as all per-service deques together, though a rollback pops only a last entry. */
  lemma {:induction false} GlobalDequeCoversServices(w: World, caps: Caps, run: seq<Event>)
    requires GlobalDominates(w) && NeverUnderCounts(w) && InOrder(w)
    requires IsRun(w, caps, run) && IsOrderedRun(w, caps, run)
    ensures GlobalDominates(After(w, caps, run))
    decreases |run|
  {
    if run == [] {
    } else {
      StepCounts(w, caps, run[0]);
      StepInOrder(w, caps, run[0]);
      StepDominates(w, caps, run[0]);
      GlobalDequeCoversServices(Next(w, caps, run[0]), caps, run[1..]);
    }
  }

  lemma StartIsGood()
    ensures NeverUnderCounts(START) && InOrder(START) && GlobalDominates(START)
  {
  }

  lemma GrantedLedger(w: World, caps: Caps, service: string, now: int, overall: seq<int>, dq: seq<int>)
    requires w.ledger.disabledUntil == map[]
    requires Trimmed(w.ledger.overall, now) + [now] == overall && Trimmed(DequeOf(w.ledger, service), now) + [now] == dq
    requires |overall| <= caps.overall && |dq| <= caps.perService
    ensures Next(w, caps, Reserve(service, now)) ==
            World(Ledger(w.ledger.perService[service := dq], overall, map[]),
                  w.attempts + [Attempt(service, now, Reserved)], w.tried + {now})
  {
  }

  lemma Step(w: World, caps: Caps, e: Event, rest: seq<Event>)
    requires Enabled(w, e) && IsRun(Next(w, caps, e), caps, rest)
    ensures IsRun(w, caps, [e] + rest) && After(w, caps, [e] + rest) == After(Next(w, caps, e), caps, rest)
  {
  }

  lemma FourSteps(w: World, caps: Caps, e1: Event, e2: Event, e3: Event, e4: Event)
    requires Enabled(w, e1) && Enabled(Next(w, caps, e1), e2) && Enabled(Next(Next(w, caps, e1), caps, e2), e3)
    requires Enabled(Next(Next(Next(w, caps, e1), caps, e2), caps, e3), e4)
    ensures IsRun(w, caps, [e1, e2, e3, e4])
    ensures After(w, caps, [e1, e2, e3, e4]) == Next(Next(Next(Next(w, caps, e1), caps, e2), caps, e3), caps, e4)
  {
    var w1 := Next(w, caps, e1);
    var w2 := Next(w1, caps, e2);
    var w3 := Next(w2, caps, e3);
    Step(w3, caps, e4, []);
    Step(w2, caps, e3, [e4]);
    Step(w1, caps, e2, [e3, e4]);
    Step(w, caps, e1, [e2, e3, e4]);
    assert [e4] + [] == [e4] && [e3] + [e4] == [e3, e4] && [e2] + [e3, e4] == [e2, e3, e4];
    assert [e1] + [e2, e3, e4] == [e1, e2, e3, e4];
  }

  lemma ThreeGrants(caps: Caps, a: string, b: string, s: int, t: int)
    requires a != b && s < t <= s + WINDOW && caps.perService >= 2 && caps.overall >= 3
    ensures var w := Next(Next(Next(START, caps, Reserve(a, s)), caps, Reserve(a, t)), caps, Reserve(b, s));
            && w.ledger == Ledger(map[a := [s, t], b := [s]], [s, t, s], map[]) && w.tried == {s, t}
            && w.attempts == [Attempt(a, s, Reserved), Attempt(a, t, Reserved), Attempt(b, s, Reserved)]
  {
    var w1 := Next(START, caps, Reserve(a, s));
    GrantedLedger(START, caps, a, s, [s], [s]);
    var w2 := Next(w1, caps, Reserve(a, t));
    GrantedLedger(w1, caps, a, t, [s, t], [s, t]);
    GrantedLedger(w2, caps, b, s, [s, t, s], [s]);
    assert map[a := [s]][a := [s, t]] == map[a := [s, t]];
  }

  /** A stamp read before another thread reserved can bury an entry: then a rollback leaves the
      global deque with one entry where the services have two. */
  lemma StaleStampBreaksCover(caps: Caps, a: string, b: string, s: int, t: int)
    requires a != b && s < t <= s + WINDOW && caps.perService >= 2 && caps.overall >= 3
    ensures var run := [Reserve(a, s), Reserve(a, t), Reserve(b, s), Fail(0, false)];
            && IsRun(START, caps, run)
            && Recent(s, After(START, caps, run).tried) && !Dominates(After(START, caps, run).ledger, s)
  {
    var w3 := Next(Next(Next(START, caps, Reserve(a, s)), caps, Reserve(a, t)), caps, Reserve(b, s));
    ThreeGrants(caps, a, b, s, t);
    BuriedRollback(caps, a, b, s, t, w3);
    FourSteps(START, caps, Reserve(a, s), Reserve(a, t), Reserve(b, s), Fail(0, false));
  }

  lemma BuriedRollback(caps: Caps, a: string, b: string, s: int, t: int, w: World)
    requires a != b && s < t <= s + WINDOW
    requires w.ledger == Ledger(map[a := [s, t], b := [s]], [s, t, s], map[]) && w.tried == {s, t}
    requires w.attempts == [Attempt(a, s, Reserved), Attempt(a, t, Reserved), Attempt(b, s, Reserved)]
    ensures var w' := Next(w, caps, Fail(0, false)); Recent(s, w'.tried) && !Dominates(w'.ledger, s)
  {
    var perService := map[a := [s, t], b := [s]];
    assert Next(w, caps, Fail(0, false)).ledger == Ledger(perService, [s, t], map[]);
    hide Next;
    TotalSplit(perService, a, s);
    TotalSplit(perService - {a}, b, s);
  }

  // ---------------------------------------------------------------- rolling caps

  /** Live, stamped in the `length` seconds that end at t, both ends included. */
  function Span(t: int, length: int): Attempt -> bool {
    (a: Attempt) => Holds(a) && t - length <= a.stamp <= t
  }

  function SpanOn(service: string, t: int, length: int): Attempt -> bool {
    (a: Attempt) => Holds(a) && a.service == service && t - length <= a.stamp <= t
  }

  /** Live, stamped at lo or later. */
  function Since(lo: int): Attempt -> bool {
    (a: Attempt) => Holds(a) && lo <= a.stamp
  }

  function SinceOn(service: string, lo: int): Attempt -> bool {
    (a: Attempt) => Holds(a) && a.service == service && lo <= a.stamp
  }

  function Max0(n: int): nat {
    if n < 0 then 0 else n
  }

  /** In every window of this length, live reservations respect both caps. */
  ghost predicate CapsHold(w: World, caps: Caps, length: int) {
    && (forall t :: Count(w.attempts, Span(t, length)) <= Max0(caps.overall))
    && (forall service, t :: Count(w.attempts, SpanOn(service, t, length)) <= Max0(caps.perService))
  }

  /** A reservation is stamped at most `lag` seconds before the latest stamp tried so far. */
  predicate Lags(w: World, e: Event, lag: int) {
    e.Reserve? ==> forall n | n in w.tried :: n - lag <= e.now
  }

  predicate IsLaggingRun(w: World, caps: Caps, run: seq<Event>, lag: int)
    requires IsRun(w, caps, run)
    decreases |run|
  {
    run == [] || (Lags(w, run[0], lag) && IsLaggingRun(Next(w, caps, run[0]), caps, run[1..], lag))
  }

  /** Stamp by stamp covered means covered in all. */
  lemma {:induction false} CoveredByDeque(attempts: seq<Attempt>, p: Attempt -> bool, ps: int -> (Attempt -> bool),
                                          dq: multiset<int>)
    requires forall a, s :: ps(s)(a) <==> p(a) && a.stamp == s
    requires forall s :: Count(attempts, ps(s)) <= dq[s]
    ensures Count(attempts, p) <= |dq|
  {
    if attempts == [] {
    } else {
      var rest, a := attempts[..|attempts| - 1], attempts[|attempts| - 1];
      if p(a) {
        assert Count(attempts, ps(a.stamp)) >= 1;
        var dq' := dq - multiset{a.stamp};
        forall s ensures Count(rest, ps(s)) <= dq'[s] {
          assert Count(attempts, ps(s)) <= dq[s];
        }
        CoveredByDeque(rest, p, ps, dq');
      } else {
        forall s ensures Count(rest, ps(s)) <= dq[s] {
          assert Count(attempts, ps(s)) <= dq[s];
        }
        CoveredByDeque(rest, p, ps, dq);
      }
    }
  }

  /** A granted reservation found fewer live ones since `length` seconds ago than the caps allow. */
  lemma GrantFindsRoom(w: World, caps: Caps, service: string, now: int, lag: nat, length: int)
    requires NeverUnderCounts(w) && Lags(w, Reserve(service, now), lag) && length + lag <= WINDOW
    requires CheckAndReserve(w.ledger, caps, service, now).1 == Granted
    ensures Count(w.attempts, Since(now - length)) < caps.overall
    ensures Count(w.attempts, SinceOn(service, now - length)) < caps.perService
  {
    var lo := now - length;
    var overall, dq := Trimmed(w.ledger.overall, now), Trimmed(DequeOf(w.ledger, service), now);
    var at := (s: int) => (a: Attempt) => Holds(a) && lo <= a.stamp && a.stamp == s;
    var on := (s: int) => (a: Attempt) => Holds(a) && a.service == service && lo <= a.stamp && a.stamp == s;
    forall s ensures Count(w.attempts, at(s)) <= multiset(overall)[s] && Count(w.attempts, on(s)) <= multiset(dq)[s] {
      if lo <= s {
        assert Recent(s, w.tried);
        TrimmedCopies(w.ledger.overall, now, s);
        TrimmedCopies(DequeOf(w.ledger, service), now, s);
        CountLe(w.attempts, at(s), LiveAt(s));
        CountLe(w.attempts, on(s), LiveOn(service, s));
        assert Count(w.attempts, LiveOn(service, s)) <= Copies(w.ledger.perService, service, s);
      } else {
        CountLe(w.attempts, at(s), (a: Attempt) => false);
        CountLe(w.attempts, on(s), (a: Attempt) => false);
        CountNone(w.attempts);
      }
    }
    CoveredByDeque(w.attempts, Since(lo), at, multiset(overall));
    CoveredByDeque(w.attempts, SinceOn(service, lo), on, multiset(dq));
  }

  lemma {:induction false} CountNone(attempts: seq<Attempt>)
    ensures Count(attempts, (a: Attempt) => false) == 0
  {
    if attempts == [] {
    } else {
      CountNone(attempts[..|attempts| - 1]);
    }
  }

  /** What a later section of an attempt changes. */
  lemma MoveCools(w: World, caps: Caps, e: Event)
    requires Enabled(w, e) && !e.Reserve?
    ensures var w', a := Next(w, caps, e), w.attempts[e.id];
            && w'.tried == w.tried && Open(a) && |w'.attempts| == |w.attempts|
            && (forall i | 0 <= i < |w.attempts| && i != e.id :: w'.attempts[i] == w.attempts[i])
            && w'.attempts[e.id].service == a.service && w'.attempts[e.id].stamp == a.stamp
            && w'.ledger.disabledUntil == (if w'.attempts[e.id].phase == StillFailing
                                           then w.ledger.disabledUntil[a.service := a.stamp + WINDOW] else w.ledger.disabledUntil)
  {
  }

  lemma MoveCaps(attempts: seq<Attempt>, id: nat, a: Attempt, p: Attempt -> bool)
    requires id < |attempts| && Holds(attempts[id]) && (p(a) ==> p(attempts[id]))
    ensures Count(attempts[id := a], p) <= Count(attempts, p)
  {
    CountMove(attempts, id, a, p);
  }

  lemma GrantFits(attempts: seq<Attempt>, a: Attempt, p: Attempt -> bool, q: Attempt -> bool, cap: int)
    requires Count(attempts, p) <= Max0(cap)
    requires p(a) ==> (forall b | b in attempts :: p(b) ==> q(b)) && Count(attempts, q) < cap
    ensures Count(attempts + [a], p) <= Max0(cap)
  {
    CountAppend(attempts, a, p);
    if p(a) {
      CountLe(attempts, p, q);
    }
  }

  lemma GrantCaps(w: World, caps: Caps, service: string, now: int, lag: nat, length: int)
    requires CapsHold(w, caps, length) && NeverUnderCounts(w)
    requires Lags(w, Reserve(service, now), lag) && length + lag <= WINDOW
    requires CheckAndReserve(w.ledger, caps, service, now).1 == Granted
    ensures CapsHold(w.(attempts := w.attempts + [Attempt(service, now, Reserved)]), caps, length)
  {
    GrantFindsRoom(w, caps, service, now, lag, length);
    hide CheckAndReserve, Count, NeverUnderCounts;
    var a := Attempt(service, now, Reserved);
    forall t ensures Count(w.attempts + [a], Span(t, length)) <= Max0(caps.overall) {
      GrantFits(w.attempts, a, Span(t, length), Since(now - length), caps.overall);
    }
    forall x, t ensures Count(w.attempts + [a], SpanOn(x, t, length)) <= Max0(caps.perService) {
      GrantFits(w.attempts, a, SpanOn(x, t, length), SinceOn(service, now - length), caps.perService);
    }
  }

  lemma StepCaps(w: World, caps: Caps, e: Event, lag: nat, length: int)
    requires CapsHold(w, caps, length) && NeverUnderCounts(w) && Enabled(w, e)
    requires Lags(w, e, lag) && length + lag <= WINDOW
    ensures CapsHold(Next(w, caps, e), caps, length)
  {
    var w' := Next(w, caps, e);
    if e.Reserve? {
      if CheckAndReserve(w.ledger, caps, e.service, e.now).1 == Granted {
        GrantCaps(w, caps, e.service, e.now, lag, length);
      }
    } else {
      MoveCools(w, caps, e);
      var a := w'.attempts[e.id];
      assert w'.attempts == w.attempts[e.id := a];
      hide Next, Count;
      forall t ensures Count(w'.attempts, Span(t, length)) <= Max0(caps.overall) {
        MoveCaps(w.attempts, e.id, a, Span(t, length));
      }
      forall x, t ensures Count(w'.attempts, SpanOn(x, t, length)) <= Max0(caps.perService) {
        MoveCaps(w.attempts, e.id, a, SpanOn(x, t, length));
      }
    }
  }

  /** Stamps may lag behind others by up to `lag` seconds: then every window shorter than an hour by as
      much respects both caps, whenever it ends. */
  lemma {:induction false} LaggingCapsHold(w: World, caps: Caps, run: seq<Event>, lag: nat, length: int)
    requires CapsHold(w, caps, length) && NeverUnderCounts(w) && length + lag <= WINDOW
    requires IsRun(w, caps, run) && IsLaggingRun(w, caps, run, lag)
    ensures CapsHold(After(w, caps, run), caps, length)
    decreases |run|
  {
    if run == [] {
    } else {
      StepCounts(w, caps, run[0]);
      StepCaps(w, caps, run[0], lag, length);
      LaggingCapsHold(Next(w, caps, run[0]), caps, run[1..], lag, length);
    }
  }

  lemma {:induction false} OrderedDoesNotLag(w: World, caps: Caps, run: seq<Event>)
    requires IsRun(w, caps, run)
    ensures IsOrderedRun(w, caps, run) <==> IsLaggingRun(w, caps, run, 0)
    decreases |run|
  {
    if run == [] {
    } else {
      OrderedDoesNotLag(Next(w, caps, run[0]), caps, run[1..]);
    }
  }

  /** With stamps in order, every hour-long window of every run respects both caps, not only the
      windows ending at a check. */
  lemma RollingCapsHold(w: World, caps: Caps, run: seq<Event>)
    requires CapsHold(w, caps, WINDOW) && NeverUnderCounts(w)
    requires IsRun(w, caps, run) && IsOrderedRun(w, caps, run)
    ensures CapsHold(After(w, caps, run), caps, WINDOW)
  {
    OrderedDoesNotLag(w, caps, run);
    LaggingCapsHold(w, caps, run, 0, WINDOW);
  }

  // ---------------------------------------------------------------- where the caps stop holding

  lemma {:induction false} JoinRuns(w: World, caps: Caps, run: seq<Event>, more: seq<Event>, lag: int)
    requires IsRun(w, caps, run) && IsLaggingRun(w, caps, run, lag)
    requires IsRun(After(w, caps, run), caps, more) && IsLaggingRun(After(w, caps, run), caps, more, lag)
    ensures IsRun(w, caps, run + more) && IsLaggingRun(w, caps, run + more, lag)
    ensures After(w, caps, run + more) == After(After(w, caps, run), caps, more)
    decreases |run|
  {
    hide Next, Enabled, Lags;
    if run == [] {
      assert run + more == more;
    } else {
      JoinRuns(Next(w, caps, run[0]), caps, run[1..], more, lag);
      assert (run + more)[1..] == run[1..] + more;
    }
  }

  /** One event after a run. */
  lemma ThenOne(w: World, caps: Caps, run: seq<Event>, e: Event, lag: int)
    requires IsRun(w, caps, run) && IsLaggingRun(w, caps, run, lag)
    requires Enabled(After(w, caps, run), e) && Lags(After(w, caps, run), e, lag)
    ensures IsRun(w, caps, run + [e]) && IsLaggingRun(w, caps, run + [e], lag)
    ensures After(w, caps, run + [e]) == Next(After(w, caps, run), caps, e)
  {
    assert [e][1..] == [];
    JoinRuns(w, caps, run, [e], lag);
  }

  function Repeat<T>(x: T, n: nat): seq<T> {
    seq(n, _ => x)
  }

  /** Landed, whether its call answered or not. */
  predicate HasLanded(a: Attempt) {
    a.phase == Landed || a.phase == Healthy || a.phase == StillFailing || a.phase == RolledBack(true)
  }

  function LandedSpan(t: int, length: int): Attempt -> bool {
    (a: Attempt) => HasLanded(a) && t - length <= a.stamp <= t
  }

  function LandedSpanOn(service: string, t: int, length: int): Attempt -> bool {
    (a: Attempt) => HasLanded(a) && a.service == service && t - length <= a.stamp <= t
  }

  /** Landed and rolled back: the ledger does not know of it. */
  function Unseen(t: int, length: int): Attempt -> bool {
    (a: Attempt) => a.phase == RolledBack(true) && t - length <= a.stamp <= t
  }

  function UnseenOn(service: string, t: int, length: int): Attempt -> bool {
    (a: Attempt) => a.phase == RolledBack(true) && a.service == service && t - length <= a.stamp <= t
  }

  /** In every window of this length, the heals that landed respect both caps. */
  ghost predicate LandedCapsHold(w: World, caps: Caps, length: int) {
    && (forall t :: Count(w.attempts, LandedSpan(t, length)) <= Max0(caps.overall))
    && (forall service, t :: Count(w.attempts, LandedSpanOn(service, t, length)) <= Max0(caps.perService))
  }

  lemma {:induction false} CountSum(attempts: seq<Attempt>, p: Attempt -> bool, q: Attempt -> bool, r: Attempt -> bool)
    requires forall a | a in attempts && p(a) :: q(a) || r(a)
    ensures Count(attempts, p) <= Count(attempts, q) + Count(attempts, r)
  {
    if attempts == [] {
    } else {
      CountSum(attempts[..|attempts| - 1], p, q, r);
    }
  }

  /** Where the caps hold for live heals, more have landed only by as many as raised after landing. */
  lemma LandedWithinCapsAndUnseen(w: World, caps: Caps, length: int, service: string, t: int)
    requires CapsHold(w, caps, length)
    ensures Count(w.attempts, LandedSpan(t, length)) <= Max0(caps.overall) + Count(w.attempts, Unseen(t, length))
    ensures Count(w.attempts, LandedSpanOn(service, t, length)) <=
            Max0(caps.perService) + Count(w.attempts, UnseenOn(service, t, length))
  {
    CountSum(w.attempts, LandedSpan(t, length), Span(t, length), Unseen(t, length));
    CountSum(w.attempts, LandedSpanOn(service, t, length), SpanOn(service, t, length), UnseenOn(service, t, length));
  }

  /** How many updates of a run raised after they landed. */
  function LostReplies(run: seq<Event>): nat {
    if run == [] then 0 else (if run[0].Fail? && run[0].landed then 1 else 0) + LostReplies(run[1..])
  }

  lemma {:induction false} LostRepliesAppend(run: seq<Event>, e: Event)
    ensures LostReplies(run + [e]) == LostReplies(run) + (if e.Fail? && e.landed then 1 else 0)
  {
    if run == [] {
      assert [e][1..] == [];
    } else {
      assert (run + [e])[1..] == run[1..] + [e];
      LostRepliesAppend(run[1..], e);
    }
  }

  function NeverSeen(): Attempt -> bool {
    (a: Attempt) => a.phase == RolledBack(true)
  }

  lemma StepUnseen(w: World, caps: Caps, e: Event)
    requires Enabled(w, e)
    ensures Count(Next(w, caps, e).attempts, NeverSeen()) == Count(w.attempts, NeverSeen()) + (if e.Fail? && e.landed then 1 else 0)
  {
    if e.Reserve? {
      CountAppend(w.attempts, Attempt(e.service, e.now, Reserved), NeverSeen());
    } else {
      CountMove(w.attempts, e.id, Next(w, caps, e).attempts[e.id], NeverSeen());
    }
  }

  lemma {:induction false} UnseenAreLost(w: World, caps: Caps, run: seq<Event>)
    requires IsRun(w, caps, run)
    ensures Count(After(w, caps, run).attempts, NeverSeen()) == Count(w.attempts, NeverSeen()) + LostReplies(run)
    decreases |run|
  {
    hide Next, Enabled, Count;
    if run == [] {
    } else {
      StepUnseen(w, caps, run[0]);
      UnseenAreLost(Next(w, caps, run[0]), caps, run[1..]);
    }
  }

  /** In every run whose stamps lag by at most `lag`, a window shorter than the hour by as much holds at
      most the cap and the lost replies of heals that landed. */
  lemma LandedHealsBound(caps: Caps, run: seq<Event>, lag: nat, length: int, service: string, t: int)
    requires IsRun(START, caps, run) && IsLaggingRun(START, caps, run, lag) && length + lag <= WINDOW
    ensures Count(After(START, caps, run).attempts, LandedSpan(t, length)) <= Max0(caps.overall) + LostReplies(run)
    ensures Count(After(START, caps, run).attempts, LandedSpanOn(service, t, length)) <= Max0(caps.perService) + LostReplies(run)
  {
    var w := After(START, caps, run);
    StartIsGood();
    LaggingCapsHold(START, caps, run, lag, length);
    LandedWithinCapsAndUnseen(w, caps, length, service, t);
    UnseenAreLost(START, caps, run);
    CountLe(w.attempts, Unseen(t, length), NeverSeen());
    CountLe(w.attempts, UnseenOn(service, t, length), NeverSeen());
  }

  /** f reservations whose update landed but raised, then n whose update landed, all with one stamp. */
  function Filling(a: string, x: int, f: nat, n: nat): seq<Event> {
    if n > 0 then Filling(a, x, f, n - 1) + [Reserve(a, x), Land(f + n - 1)]
    else if f > 0 then Filling(a, x, f - 1, 0) + [Reserve(a, x), Fail(f - 1, true)]
    else []
  }

  function Filled(a: string, x: int, f: nat, n: nat): World {
    if f == 0 && n == 0 then START
    else World(Ledger(map[a := Repeat(x, n)], Repeat(x, n), map[]),
               Repeat(Attempt(a, x, RolledBack(true)), f) + Repeat(Attempt(a, x, Landed), n), {x})
  }

  lemma RepeatMore<T>(x: T, n: nat)
    ensures Repeat(x, n + 1) == Repeat(x, n) + [x] && Repeat(x, 0) == []
  {
  }

  lemma FillOne(caps: Caps, a: string, x: int, f: nat, n: nat)
    requires n < caps.perService && n < caps.overall
    ensures var w := Next(Filled(a, x, f, n), caps, Reserve(a, x));
            && Enabled(w, Land(f + n)) && Next(w, caps, Land(f + n)) == Filled(a, x, f, n + 1)
            && (n == 0 ==> Enabled(w, Fail(f, true)) && Next(w, caps, Fail(f, true)) == Filled(a, x, f + 1, 0))
  {
    var w, stamps := Filled(a, x, f, n), Repeat(x, n + 1);
    var lost, done := Repeat(Attempt(a, x, RolledBack(true)), f), Repeat(Attempt(a, x, Landed), n);
    RepeatMore(x, n);
    RepeatMore(Attempt(a, x, RolledBack(true)), f);
    RepeatMore(Attempt(a, x, Landed), n);
    assert w.attempts == lost + done;
    GrantedLedger(w, caps, a, x, stamps, stamps);
    var v := Next(w, caps, Reserve(a, x));
    assert v == World(Ledger(map[a := stamps], stamps, map[]), lost + done + [Attempt(a, x, Reserved)], {x});
    hide Next;
    FilledNext(caps, a, x, f, n, v, stamps);
  }

  lemma FilledNext(caps: Caps, a: string, x: int, f: nat, n: nat, v: World, stamps: seq<int>)
    requires stamps == Repeat(x, n) + [x] == Repeat(x, n + 1)
    requires v == World(Ledger(map[a := stamps], stamps, map[]),
                        Repeat(Attempt(a, x, RolledBack(true)), f) + Repeat(Attempt(a, x, Landed), n) + [Attempt(a, x, Reserved)], {x})
    ensures Enabled(v, Land(f + n)) && Next(v, caps, Land(f + n)) == Filled(a, x, f, n + 1)
    ensures n == 0 ==> Enabled(v, Fail(f, true)) && Next(v, caps, Fail(f, true)) == Filled(a, x, f + 1, 0)
  {
    var lost, done := Repeat(Attempt(a, x, RolledBack(true)), f), Repeat(Attempt(a, x, Landed), n);
    RepeatMore(Attempt(a, x, RolledBack(true)), f);
    RepeatMore(Attempt(a, x, Landed), n);
    assert Move(v.attempts, f + n, Landed) == lost + done + [Attempt(a, x, Landed)] == lost + (done + [Attempt(a, x, Landed)]);
    if n == 0 {
      assert Repeat(x, 0) == [] && stamps == [x];
      assert Unstamped([x], x) == [];
      assert map[a := [x]][a := []] == map[a := []];
      assert Move(v.attempts, f, RolledBack(true)) == lost + [Attempt(a, x, RolledBack(true))];
      assert Repeat(Attempt(a, x, Landed), 0) == [];
    }
  }

  lemma {:induction false} Fill(caps: Caps, a: string, x: int, f: nat, n: nat, lag: nat)
    requires n <= Tightest(caps) && Tightest(caps) >= 1
    ensures var run := Filling(a, x, f, n);
            && IsRun(START, caps, run) && IsLaggingRun(START, caps, run, lag) && After(START, caps, run) == Filled(a, x, f, n)
            && LostReplies(run) == f
    decreases f, n
  {
    hide Next;
    if n > 0 {
      Fill(caps, a, x, f, n - 1, lag);
      FillOne(caps, a, x, f, n - 1);
      ThenTwo(START, caps, Filling(a, x, f, n - 1), Reserve(a, x), Land(f + n - 1), lag);
    } else if f > 0 {
      Fill(caps, a, x, f - 1, 0, lag);
      FillOne(caps, a, x, f - 1, 0);
      ThenTwo(START, caps, Filling(a, x, f - 1, 0), Reserve(a, x), Fail(f - 1, true), lag);
    } else {
    }
  }

  lemma ThenTwo(w: World, caps: Caps, run: seq<Event>, e: Event, e': Event, lag: int)
    requires IsRun(w, caps, run) && IsLaggingRun(w, caps, run, lag)
    requires Enabled(After(w, caps, run), e) && Lags(After(w, caps, run), e, lag)
    requires Enabled(Next(After(w, caps, run), caps, e), e') && !e'.Reserve?
    ensures IsRun(w, caps, run + [e, e']) && IsLaggingRun(w, caps, run + [e, e'], lag)
    ensures After(w, caps, run + [e, e']) == Next(Next(After(w, caps, run), caps, e), caps, e')
    ensures LostReplies(run + [e, e']) ==
            LostReplies(run) + (if e.Fail? && e.landed then 1 else 0) + (if e'.Fail? && e'.landed then 1 else 0)
  {
    hide Next, Enabled;
    ThenOne(w, caps, run, e, lag);
    ThenOne(w, caps, run + [e], e', lag);
    LostRepliesAppend(run, e);
    LostRepliesAppend(run + [e], e');
    assert run + [e] + [e'] == run + [e, e'];
  }

  lemma {:induction false} AllTrimmed(x: int, n: nat, now: int)
    requires x < now - WINDOW
    ensures Trimmed(Repeat(x, n), now) == []
  {
    if n == 0 {
    } else {
      assert Repeat(x, n)[1..] == Repeat(x, n - 1);
      AllTrimmed(x, n - 1, now);
    }
  }

  function Tightest(caps: Caps): int {
    if caps.perService <= caps.overall then caps.perService else caps.overall
  }

  /** As many heals as the caps allow, one more than an hour later, and one with a stamp read before it.
      Only a cap of one needs the later one to fail. */
  function StaleRun(a: string, x: int, n: nat, s: int): seq<Event> {
    var last := if n == 1 then Fail(1, false) else Land(n);
    Filling(a, x, 0, n) + [Reserve(a, x + WINDOW + 1), last] + [Reserve(a, s), Land(n + 1)]
  }

  /** The state before the stale reservation. */
  lemma BeforeStale(caps: Caps, a: string, x: int, n: nat, lag: nat)
    requires n == Tightest(caps) >= 1
    ensures var t, last := x + WINDOW + 1, if n == 1 then Fail(1, false) else Land(n);
            var run := Filling(a, x, 0, n) + [Reserve(a, t), last];
            && IsRun(START, caps, run) && IsLaggingRun(START, caps, run, lag) && LostReplies(run) == 0
            && var w := After(START, caps, run);
               && w.tried == {x, t} && w.ledger.disabledUntil == map[]
               && w.ledger.overall == DequeOf(w.ledger, a) == (if n == 1 then [] else [t])
               && w.attempts == Repeat(Attempt(a, x, Landed), n) + [Attempt(a, t, if n == 1 then RolledBack(false) else Landed)]
  {
    var t, last := x + WINDOW + 1, if n == 1 then Fail(1, false) else Land(n);
    Fill(caps, a, x, 0, n, lag);
    AllTrimmed(x, n, t);
    var w := Filled(a, x, 0, n);
    assert Repeat(Attempt(a, x, RolledBack(true)), 0) == [];
    assert w.attempts == Repeat(Attempt(a, x, Landed), n);
    GrantedLedger(w, caps, a, t, [t], [t]);
    ThenTwo(START, caps, Filling(a, x, 0, n), Reserve(a, t), last, lag);
    var v := Next(w, caps, Reserve(a, t));
    assert v.attempts == Repeat(Attempt(a, x, Landed), n) + [Attempt(a, t, Reserved)];
    assert Move(v.attempts, n, if n == 1 then RolledBack(false) else Landed) ==
           Repeat(Attempt(a, x, Landed), n) + [Attempt(a, t, if n == 1 then RolledBack(false) else Landed)];
  }

  lemma {:induction false} CountRepeat(a: Attempt, n: nat, p: Attempt -> bool)
    requires p(a)
    ensures Count(Repeat(a, n), p) == n
  {
    if n == 0 {
    } else {
      assert Repeat(a, n)[..n - 1] == Repeat(a, n - 1);
      CountRepeat(a, n - 1, p);
    }
  }

  lemma OneTooMany(a: string, x: int, n: nat, s: int, other: Attempt, p: Attempt -> bool)
    requires p(Attempt(a, x, Landed)) && p(Attempt(a, s, Landed))
    ensures Count(Repeat(Attempt(a, x, Landed), n) + [other] + [Attempt(a, s, Landed)], p) > n
  {
    CountRepeat(Attempt(a, x, Landed), n, p);
    CountAppend(Repeat(Attempt(a, x, Landed), n), other, p);
    CountAppend(Repeat(Attempt(a, x, Landed), n) + [other], Attempt(a, s, Landed), p);
  }

  lemma AfterStale(caps: Caps, a: string, x: int, n: nat, s: int, lag: nat)
    requires n == Tightest(caps) >= 1 && x <= s <= x + WINDOW + 1 <= s + lag
    ensures var run := StaleRun(a, x, n, s);
            && IsRun(START, caps, run) && IsLaggingRun(START, caps, run, lag) && LostReplies(run) == 0
            && After(START, caps, run).attempts ==
               Repeat(Attempt(a, x, Landed), n) + [Attempt(a, x + WINDOW + 1, if n == 1 then RolledBack(false) else Landed)]
               + [Attempt(a, s, Landed)]
  {
    var t := x + WINDOW + 1;
    var before := Filling(a, x, 0, n) + [Reserve(a, t), if n == 1 then Fail(1, false) else Land(n)];
    BeforeStale(caps, a, x, n, lag);
    var w := After(START, caps, before);
    var dq := w.ledger.overall;
    assert Trimmed(dq, s) == dq;
    GrantedLedger(w, caps, a, s, dq + [s], dq + [s]);
    ThenTwo(START, caps, before, Reserve(a, s), Land(n + 1), lag);
  }

  /** A stamp older than the latest lets a past window overfill, under any caps and however small the
      age, with heals that landed and answered: the later stamp has emptied the deques, so the caps no
      longer see the heals of that window. The attempts of the run fall within the time by which length
      and lag exceed the hour, so as many threads must be at it at once as that short time demands. */
  lemma StaleStampBreaksCaps(caps: Caps, a: string, x: int, s: int, lag: nat, length: int)
    requires Tightest(caps) >= 1 && x <= s <= x + WINDOW + 1 <= s + lag && length >= s - x
    ensures var run := StaleRun(a, x, Tightest(caps), s);
            && IsRun(START, caps, run) && IsLaggingRun(START, caps, run, lag) && LostReplies(run) == 0
            && !CapsHold(After(START, caps, run), caps, length)
            && !LandedCapsHold(After(START, caps, run), caps, length)
  {
    hide Next, Count, StaleRun, After, IsRun, IsLaggingRun;
    var n, t := Tightest(caps), x + WINDOW + 1;
    AfterStale(caps, a, x, n, s, lag);
    var other := Attempt(a, t, if n == 1 then RolledBack(false) else Landed);
    OneTooMany(a, x, n, s, other, Span(s, length));
    OneTooMany(a, x, n, s, other, SpanOn(a, s, length));
    OneTooMany(a, x, n, s, other, LandedSpan(s, length));
    OneTooMany(a, x, n, s, other, LandedSpanOn(a, s, length));
  }

  /** Exactly when the caps hold in every window of a length, for runs whose stamps lag by at most `lag`:
      when length and lag together do not exceed the hour. */
  lemma CapsHoldIff(caps: Caps, a: string, lag: nat, length: nat)
    requires Tightest(caps) >= 1
    ensures (forall run | IsRun(START, caps, run) && IsLaggingRun(START, caps, run, lag) ::
               CapsHold(After(START, caps, run), caps, length)) <==> length + lag <= WINDOW
  {
    StartIsGood();
    if length + lag <= WINDOW {
      forall run | IsRun(START, caps, run) && IsLaggingRun(START, caps, run, lag)
        ensures CapsHold(After(START, caps, run), caps, length)
      {
        LaggingCapsHold(START, caps, run, lag, length);
      }
    } else {
      var s := if lag > WINDOW + 1 then 0 else WINDOW + 1 - lag;
      StaleStampBreaksCaps(caps, a, 0, s, lag, length);
    }
  }

  /** The bound is reached: after f lost replies, f more heals than the cap land, all in one second. With
      stamps in order, and any number f. */
  lemma LostRepliesBreakCaps(caps: Caps, a: string, x: int, f: nat, lag: nat, length: nat)
    requires Tightest(caps) >= 1
    ensures var n := Tightest(caps);
            var run := Filling(a, x, f, n);
            && IsRun(START, caps, run) && IsLaggingRun(START, caps, run, lag) && LostReplies(run) == f
            && Count(After(START, caps, run).attempts, LandedSpan(x, length)) == n + f
            && Count(After(START, caps, run).attempts, LandedSpanOn(a, x, length)) == n + f
  {
    var n := Tightest(caps);
    Fill(caps, a, x, f, n, lag);
    hide Count, Filling;
    CountJoined(Attempt(a, x, RolledBack(true)), f, Attempt(a, x, Landed), n, LandedSpan(x, length));
    CountJoined(Attempt(a, x, RolledBack(true)), f, Attempt(a, x, Landed), n, LandedSpanOn(a, x, length));
  }

  lemma {:induction false} CountJoined(a: Attempt, f: nat, b: Attempt, n: nat, p: Attempt -> bool)
    requires p(a) && p(b)
    ensures Count(Repeat(a, f) + Repeat(b, n), p) == n + f
  {
    if n == 0 {
      assert Repeat(a, f) + Repeat(b, 0) == Repeat(a, f);
      CountRepeat(a, f, p);
    } else {
      assert Repeat(a, f) + Repeat(b, n) == Repeat(a, f) + Repeat(b, n - 1) + [b];
      CountJoined(a, f, b, n - 1, p);
      CountAppend(Repeat(a, f) + Repeat(b, n - 1), b, p);
    }
  }

  lemma LandedHealsHold(caps: Caps, run: seq<Event>, lag: nat, length: int)
    requires IsRun(START, caps, run) && IsLaggingRun(START, caps, run, lag) && length + lag <= WINDOW
    requires LostReplies(run) == 0
    ensures LandedCapsHold(After(START, caps, run), caps, length)
  {
    hide Count, After, IsRun, IsLaggingRun;
    var w := After(START, caps, run);
    forall t ensures Count(w.attempts, LandedSpan(t, length)) <= Max0(caps.overall) {
      LandedHealsBound(caps, run, lag, length, "", t);
    }
    forall service, t ensures Count(w.attempts, LandedSpanOn(service, t, length)) <= Max0(caps.perService) {
      LandedHealsBound(caps, run, lag, length, service, t);
    }
  }

  /** Exactly when the caps hold for the heals that landed, in every window of a length, for runs whose
      stamps lag by at most `lag` and in which at most `lost` updates raise after landing. */
  lemma LandedCapsHoldIff(caps: Caps, a: string, lag: nat, length: nat, lost: nat)
    requires Tightest(caps) >= 1
    ensures (forall run | IsRun(START, caps, run) && IsLaggingRun(START, caps, run, lag) && LostReplies(run) <= lost ::
               LandedCapsHold(After(START, caps, run), caps, length)) <==> length + lag <= WINDOW && lost == 0
  {
    hide Count, After, StaleRun, Filling;
    if lost > 0 {
      LostRepliesBreakCaps(caps, a, 0, 1, lag, length);
    } else if length + lag <= WINDOW {
      forall run | IsRun(START, caps, run) && IsLaggingRun(START, caps, run, lag) && LostReplies(run) <= lost
        ensures LandedCapsHold(After(START, caps, run), caps, length)
      {
        LandedHealsHold(caps, run, lag, length);
      }
    } else {
      var s := if lag > WINDOW + 1 then 0 else WINDOW + 1 - lag;
      StaleStampBreaksCaps(caps, a, 0, s, lag, length);
    }
  }

  // ---------------------------------------------------------------- the verify cooldown

  /** Attempts on one service do not overlap. */
  predicate Exclusive(w: World, e: Event) {
    e.Reserve? ==> forall a | a in w.attempts && a.service == e.service :: !Open(a)
  }

  predicate IsExclusiveRun(w: World, caps: Caps, run: seq<Event>)
    requires IsRun(w, caps, run)
    decreases |run|
  {
    run == [] || (Exclusive(w, run[0]) && IsExclusiveRun(Next(w, caps, run[0]), caps, run[1..]))
  }

  /** Of two attempts on one service the first is over and stamped no later, and if its verify
      failed the second is stamped a window later or more. */
  predicate Separated(attempts: seq<Attempt>) {
    forall i, j | 0 <= i < j < |attempts| :: InTurn(attempts[i], attempts[j])
  }

  predicate InTurn(a: Attempt, b: Attempt) {
    a.service == b.service ==>
      !Open(a) && a.stamp <= b.stamp && (a.phase == StillFailing ==> b.stamp >= a.stamp + WINDOW)
  }

  /** A failed verify is still enforced, or a window old. */
  predicate Enforced(w: World, a: Attempt) {
    a.phase == StillFailing ==>
      || (exists n | n in w.tried :: n >= a.stamp + WINDOW)
      || (a.service in w.ledger.disabledUntil && w.ledger.disabledUntil[a.service] >= a.stamp + WINDOW)
  }

  predicate CooldownHolds(w: World) {
    Separated(w.attempts) && forall i | 0 <= i < |w.attempts| :: Enforced(w, w.attempts[i])
  }

  lemma ReserveCooldown(w: World, caps: Caps, service: string, now: int)
    requires CooldownHolds(w) && InOrder(w)
    requires StampedInOrder(w, Reserve(service, now)) && Exclusive(w, Reserve(service, now))
    ensures CooldownHolds(Next(w, caps, Reserve(service, now)))
  {
  }

  lemma MoveCooldown(w: World, caps: Caps, e: Event)
    requires CooldownHolds(w) && Enabled(w, e) && !e.Reserve?
    ensures CooldownHolds(Next(w, caps, e))
  {
  }

  /** With stamps in order and attempts on a service not overlapping: after a verify fails for the
      attempt stamped n, every later grant for that service is stamped n + 3600 or later. */
  lemma {:induction false} CooldownIsKept(w: World, caps: Caps, run: seq<Event>)
    requires CooldownHolds(w) && InOrder(w)
    requires IsRun(w, caps, run) && IsOrderedRun(w, caps, run) && IsExclusiveRun(w, caps, run)
    ensures CooldownHolds(After(w, caps, run))
    decreases |run|
  {
    if run == [] {
    } else {
      StepInOrder(w, caps, run[0]);
      if run[0].Reserve? {
        ReserveCooldown(w, caps, run[0].service, run[0].now);
      } else {
        MoveCooldown(w, caps, run[0]);
      }
      CooldownIsKept(Next(w, caps, run[0]), caps, run[1..]);
    }
  }

  // ---------------------------------------------------------------- the verdict

  /** Entries at `since` or later. */
  function Entries(dq: seq<int>, since: int): nat {
    if dq == [] then 0 else Entries(dq[1..], since) + (if dq[0] >= since then 1 else 0)
  }

  /** Trimming drops entries from the front, all older than the window, up to the first that is not. */
  lemma {:induction false} TrimmedIsRest(dq: seq<int>, now: int)
    ensures var rest := Trimmed(dq, now);
            && |rest| <= |dq| && rest == dq[|dq| - |rest|..]
            && (forall i | 0 <= i < |dq| - |rest| :: dq[i] < now - WINDOW)
            && (rest == [] || rest[0] >= now - WINDOW)
  {
    if dq != [] && dq[0] < now - WINDOW {
      TrimmedIsRest(dq[1..], now);
    } else {
    }
  }

  lemma {:induction false} EntriesAll(dq: seq<int>, since: int)
    requires forall i | 0 <= i < |dq| :: dq[i] >= since
    ensures Entries(dq, since) == |dq|
  {
    if dq == [] {
    } else {
      EntriesAll(dq[1..], since);
    }
  }

  lemma {:induction false} TrimmedEntries(dq: seq<int>, now: int)
    requires Sorted(dq)
    ensures |Trimmed(dq, now)| == Entries(dq, now - WINDOW)
  {
    if dq != [] && dq[0] < now - WINDOW {
      TrimmedEntries(dq[1..], now);
    } else {
      EntriesAll(dq, now - WINDOW);
    }
  }

  /** A verify of the service failed less than an hour ago. */
  predicate Cooling(attempts: seq<Attempt>, service: string, now: int) {
    exists i | 0 <= i < |attempts| ::
      attempts[i].service == service && attempts[i].phase == StillFailing && now < attempts[i].stamp + 3600
  }

  predicate FailedAt(attempts: seq<Attempt>, service: string, stamp: int) {
    exists i | 0 <= i < |attempts| :: attempts[i] == Attempt(service, stamp, StillFailing)
  }

  /** Every cooldown in the table is that of a failed verify. */
  predicate Justified(w: World) {
    forall x | x in w.ledger.disabledUntil :: FailedAt(w.attempts, x, w.ledger.disabledUntil[x] - WINDOW)
  }

  lemma FailedStays(attempts: seq<Attempt>, attempts': seq<Attempt>)
    requires |attempts| <= |attempts'|
    requires forall i | 0 <= i < |attempts| && attempts[i].phase == StillFailing :: attempts'[i] == attempts[i]
    ensures forall x, t | FailedAt(attempts, x, t) :: FailedAt(attempts', x, t)
  {
  }

  lemma StepJustified(w: World, caps: Caps, e: Event)
    requires Justified(w) && Enabled(w, e)
    ensures Justified(Next(w, caps, e))
  {
    var w' := Next(w, caps, e);
    FailedStays(w.attempts, w'.attempts);
    if e.Settle? && e.stillFailing {
      assert w'.attempts[e.id] == Attempt(w.attempts[e.id].service, w.attempts[e.id].stamp, StillFailing);
    }
    hide FailedAt;
  }

  lemma {:induction false} JustifiedInRuns(w: World, caps: Caps, run: seq<Event>)
    requires Justified(w) && IsRun(w, caps, run)
    ensures Justified(After(w, caps, run))
    decreases |run|
  {
    hide Next, Justified;
    if run == [] {
    } else {
      StepJustified(w, caps, run[0]);
      JustifiedInRuns(Next(w, caps, run[0]), caps, run[1..]);
    }
  }

  lemma {:induction false} OrderInRuns(w: World, caps: Caps, run: seq<Event>)
    requires InOrder(w) && IsRun(w, caps, run) && IsOrderedRun(w, caps, run)
    ensures InOrder(After(w, caps, run))
    decreases |run|
  {
    hide Next, InOrder;
    if run == [] {
    } else {
      StepInOrder(w, caps, run[0]);
      OrderInRuns(Next(w, caps, run[0]), caps, run[1..]);
    }
  }

  lemma DisabledIffCooling(w: World, service: string, now: int)
    requires CooldownHolds(w) && Justified(w) && StampedInOrder(w, Reserve(service, now))
    ensures service in w.ledger.disabledUntil && now < w.ledger.disabledUntil[service] <==> Cooling(w.attempts, service, now)
  {
    if i :| 0 <= i < |w.attempts| && w.attempts[i].service == service && w.attempts[i].phase == StillFailing
            && now < w.attempts[i].stamp + WINDOW {
      assert Enforced(w, w.attempts[i]);
    }
  }

  /** How a reservation is judged, in every run with stamps in order and attempts on a service not
      overlapping. It is refused as disabled exactly while a failed verify of the service is less than an hour
      old; then for the global cap exactly when the global deque has that many entries of the last hour; then
      for the service's cap likewise; otherwise it is granted. So a cooldown ends, and so does a full
      window. */
  lemma VerdictIs(caps: Caps, run: seq<Event>, service: string, now: int)
    requires IsRun(START, caps, run) && IsOrderedRun(START, caps, run) && IsExclusiveRun(START, caps, run)
    requires StampedInOrder(After(START, caps, run), Reserve(service, now))
    ensures var w := After(START, caps, run);
            var verdict := CheckAndReserve(w.ledger, caps, service, now).1;
            var overall, own := Entries(w.ledger.overall, now - 3600), Entries(DequeOf(w.ledger, service), now - 3600);
            && (verdict == Disabled <==> Cooling(w.attempts, service, now))
            && (verdict == GlobalRateLimited <==> !Cooling(w.attempts, service, now) && overall >= caps.overall)
            && (verdict == RateLimited <==>
                !Cooling(w.attempts, service, now) && overall < caps.overall && own >= caps.perService)
            && (Next(w, caps, Reserve(service, now)).attempts ==
                w.attempts + (if !Cooling(w.attempts, service, now) && overall < caps.overall && own < caps.perService
                              then [Attempt(service, now, Reserved)] else []))
  {
    var w := After(START, caps, run);
    StartIsGood();
    JustifiedInRuns(START, caps, run);
    OrderInRuns(START, caps, run);
    CooldownIsKept(START, caps, run);
    DisabledIffCooling(w, service, now);
    TrimmedEntries(w.ledger.overall, now);
    TrimmedEntries(DequeOf(w.ledger, service), now);
    hide After, IsRun, IsOrderedRun, IsExclusiveRun, Cooling, Entries, Trimmed, CooldownHolds, Justified, InOrder;
    assert w.attempts + [] == w.attempts;
  }

  /** The four guarantees from the empty ledger. */
  lemma FromTheStart(caps: Caps, run: seq<Event>)
    requires IsRun(START, caps, run)
    ensures NeverUnderCounts(After(START, caps, run))
    ensures IsOrderedRun(START, caps, run) ==>
              GlobalDominates(After(START, caps, run)) && CapsHold(After(START, caps, run), caps, WINDOW)
    ensures IsOrderedRun(START, caps, run) && IsExclusiveRun(START, caps, run) ==> CooldownHolds(After(START, caps, run))
  {
    StartIsGood();
    LedgerNeverUnderCounts(START, caps, run);
    if IsOrderedRun(START, caps, run) {
      GlobalDequeCoversServices(START, caps, run);
      RollingCapsHold(START, caps, run);
      if IsExclusiveRun(START, caps, run) {
        CooldownIsKept(START, caps, run);
      }
    }
  }
}
