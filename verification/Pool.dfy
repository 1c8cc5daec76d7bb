/** The one connection pool of app/database.py: coroutines that create and close it, interleaved at
    their await points. */
module Pool {
  import opened Options

  /** Where a coroutine stands. Pools are numbered in the order they were created. */
  datatype Task =
    | GetWaiting
    | Creating
    | CloseWaiting
    | Closing
    | Returned(pool: nat)
    | Raised
    | Finished

  datatype World = World(
    published: Option<nat>,
    holder: Option<nat>,
    tasks: map<nat, Task>,
    open: set<nat>,
    broken: set<nat>,
    created: nat,
    closed: nat)

  const START: World := World(None, None, map[], {}, {}, 0, 0)

  /** What happens between two await points. `Locked` is the lock being granted; a close that fails may
      have taken the pool down with it or left it as it was. */
  datatype Event =
    | Get(task: nat)
    | Close(task: nat)
    | Locked(task: nat)
    | Created(task: nat)
    | CreateFailed(task: nat)
    | Closed(task: nat)
    | CloseFailed(task: nat, down: bool)
    | Cancelled(task: nat)

  predicate In(w: World, i: nat, t: Task) {
    i in w.tasks && w.tasks[i] == t
  }

  predicate Enabled(w: World, e: Event) {
    match e
    case Get(i) => i !in w.tasks
    case Close(i) => i !in w.tasks
    case Locked(i) => w.holder.None? && (In(w, i, GetWaiting) || In(w, i, CloseWaiting))
    case Created(i) => In(w, i, Creating)
    case CreateFailed(i) => In(w, i, Creating)
    case Closed(i) => In(w, i, Closing)
    case CloseFailed(i, _) => In(w, i, Closing)
    case Cancelled(i) => In(w, i, GetWaiting) || In(w, i, CloseWaiting)
  }

  /** What closing the published pool closes: nothing the second time. */
  function Taken(published: Option<nat>, open: set<nat>): set<nat> {
    if published.Some? && published.value in open then {published.value} else {}
  }

  function Next(w: World, e: Event): World
    requires Enabled(w, e)
  {
    match e
    case Get(i) =>
      w.(tasks := w.tasks[i := if w.published.Some? then Returned(w.published.value) else GetWaiting])
    case Close(i) =>
      w.(tasks := w.tasks[i := CloseWaiting])
    case Locked(i) =>
      if In(w, i, GetWaiting) then
        if w.published.Some? then w.(tasks := w.tasks[i := Returned(w.published.value)])
        else w.(tasks := w.tasks[i := Creating], holder := Some(i))
      else
        if w.published.Some? then w.(tasks := w.tasks[i := Closing], holder := Some(i))
        else w.(tasks := w.tasks[i := Finished])
    case Created(i) =>
      w.(tasks := w.tasks[i := Returned(w.created)], holder := None, published := Some(w.created),
         open := w.open + {w.created}, created := w.created + 1)
    case CreateFailed(i) =>
      w.(tasks := w.tasks[i := Raised], holder := None)
    case Closed(i) =>
      var gone := Taken(w.published, w.open);
      w.(tasks := w.tasks[i := Finished], holder := None, published := None,
         open := w.open - gone, closed := w.closed + |gone|)
    case CloseFailed(i, down) =>
      var gone := if down then Taken(w.published, w.open) else {};
      w.(tasks := w.tasks[i := Raised], holder := None,
         open := w.open - gone, broken := w.broken + gone, closed := w.closed + |gone|)
    case Cancelled(i) =>
      w.(tasks := w.tasks[i := Raised])
  }

  /** The module's globals and the lock, with one method for each stretch of `get_pool` and `close_pool`
      between await points. */
  class Database {
    var published: Option<nat>
    var holder: Option<nat>
    var tasks: map<nat, Task>
    var open: set<nat>
    var broken: set<nat>
    var created: nat
    var closed: nat

    function Snapshot(): World
      reads this
    {
      World(published, holder, tasks, open, broken, created, closed)
    }

    constructor ()
      ensures Snapshot() == START
    {
      published, holder, tasks, open, broken, created, closed := None, None, map[], {}, {}, 0, 0;
    }

    /** Up to the wait for the lock: a published pool is returned without it. */
    method GetPool(i: nat)
      requires Enabled(Snapshot(), Get(i))
      modifies this
      ensures Snapshot() == Next(old(Snapshot()), Get(i))
    {
      if published.Some? {
        tasks := tasks[i := Returned(published.value)];
        return;
      }
      tasks := tasks[i := GetWaiting];
    }

    /** From the lock to `create_pool`: the second look at the published pool. */
    method GetPoolLocked(i: nat)
      requires Enabled(Snapshot(), Locked(i)) && In(Snapshot(), i, GetWaiting)
      modifies this
      ensures Snapshot() == Next(old(Snapshot()), Locked(i))
    {
      if published.Some? {
        tasks := tasks[i := Returned(published.value)];
        return;
      }
      holder := Some(i);
      tasks := tasks[i := Creating];
    }

    /** After `create_pool`: publish and leave the lock. */
    method PoolCreated(i: nat) returns (pool: nat)
      requires Enabled(Snapshot(), Created(i))
      modifies this
      ensures Snapshot() == Next(old(Snapshot()), Created(i))
      ensures published == Some(pool) && pool in open
    {
      pool := created;
      created := created + 1;
      open := open + {pool};
      published := Some(pool);
      holder := None;
      tasks := tasks[i := Returned(pool)];
    }

    method CreationFailed(i: nat)
      requires Enabled(Snapshot(), CreateFailed(i))
      modifies this
      ensures Snapshot() == Next(old(Snapshot()), CreateFailed(i))
    {
      holder := None;
      tasks := tasks[i := Raised];
    }

    method ClosePoolLocked(i: nat)
      requires Enabled(Snapshot(), Locked(i)) && In(Snapshot(), i, CloseWaiting)
      modifies this
      ensures Snapshot() == Next(old(Snapshot()), Locked(i))
    {
      if published.Some? {
        holder := Some(i);
        tasks := tasks[i := Closing];
      } else {
        tasks := tasks[i := Finished];
      }
    }

    /** `close_pool` goes straight for the lock. */
    method ClosePool(i: nat)
      requires Enabled(Snapshot(), Close(i))
      modifies this
      ensures Snapshot() == Next(old(Snapshot()), Close(i))
    {
      tasks := tasks[i := CloseWaiting];
    }

    /** The pool's own `close` raised: the lock is left, the pool stays published. */
    method ClosingFailed(i: nat, down: bool)
      requires Enabled(Snapshot(), CloseFailed(i, down))
      modifies this
      ensures Snapshot() == Next(old(Snapshot()), CloseFailed(i, down))
    {
      var gone := if down then Taken(published, open) else {};
      open, broken, closed := open - gone, broken + gone, closed + |gone|;
      holder := None;
      tasks := tasks[i := Raised];
    }

    /** A coroutine that waits for the lock is cancelled. */
    method Cancel(i: nat)
      requires Enabled(Snapshot(), Cancelled(i))
      modifies this
      ensures Snapshot() == Next(old(Snapshot()), Cancelled(i))
    {
      tasks := tasks[i := Raised];
    }

    /** After the pool's own `close`. */
    method PoolClosed(i: nat)
      requires Enabled(Snapshot(), Closed(i))
      modifies this
      ensures Snapshot() == Next(old(Snapshot()), Closed(i))
    {
      var gone := Taken(published, open);
      open, closed := open - gone, closed + |gone|;
      published := None;
      holder := None;
      tasks := tasks[i := Finished];
    }

    /** The event loop resumes a coroutine. */
    method Handle(e: Event)
      requires Enabled(Snapshot(), e)
      modifies this
      ensures Snapshot() == Next(old(Snapshot()), e)
    {
      match e
      case Get(i) => GetPool(i);
      case Close(i) => ClosePool(i);
      case Locked(i) =>
        if tasks[i] == GetWaiting {
          GetPoolLocked(i);
        } else {
          ClosePoolLocked(i);
        }
      case Created(i) => var pool := PoolCreated(i);
      case CreateFailed(i) => CreationFailed(i);
      case Closed(i) => PoolClosed(i);
      case CloseFailed(i, down) => ClosingFailed(i, down);
      case Cancelled(i) => Cancel(i);
    }
  }

  // ---------------------------------------------------------------- what every interleaving keeps

  /** The lock is held by the coroutine inside it, and the second look still holds there. */
  predicate LockInv(w: World) {
    && (w.holder.Some? ==> In(w, w.holder.value, Creating) || In(w, w.holder.value, Closing))
    && (forall i | i in w.tasks && (w.tasks[i].Creating? || w.tasks[i].Closing?) :: w.holder == Some(i))
    && (w.holder.Some? ==> (w.published.Some? <==> In(w, w.holder.value, Closing)))
  }

  /** An open pool is the published one, and every created pool is open or closed. */
  predicate PoolInv(w: World) {
    && (w.published.Some? ==> w.published.value < w.created)
    && (forall p | p in w.broken :: p < w.created)
    && w.open == Live(w)
    && w.created == w.closed + |w.open|
  }

  /** The published pool, unless a failed close took it down. */
  function Live(w: World): set<nat> {
    if w.published.Some? && w.published.value !in w.broken then {w.published.value} else {}
  }

  predicate Inv(w: World) {
    LockInv(w) && PoolInv(w)
  }

  lemma LockInvNext(w: World, e: Event)
    requires LockInv(w) && Enabled(w, e)
    ensures LockInv(Next(w, e))
  {
  }

  lemma TakenIsLive(w: World)
    requires PoolInv(w)
    ensures Taken(w.published, w.open) == w.open
  {
  }

  lemma CreatedKeeps(w: World, i: nat)
    requires Inv(w) && Enabled(w, Created(i))
    ensures PoolInv(Next(w, Created(i)))
  {
    assert w.published.None? && w.created !in w.broken;
    assert Next(w, Created(i)).open == {w.created};
  }

  lemma ClosedKeeps(w: World, i: nat)
    requires PoolInv(w) && Enabled(w, Closed(i))
    ensures PoolInv(Next(w, Closed(i)))
  {
    hide Enabled;
    TakenIsLive(w);
    assert Next(w, Closed(i)).open == {};
  }

  lemma CloseFailedKeeps(w: World, i: nat, down: bool)
    requires PoolInv(w) && Enabled(w, CloseFailed(i, down))
    ensures PoolInv(Next(w, CloseFailed(i, down)))
  {
    hide Enabled;
    TakenIsLive(w);
    var v := Next(w, CloseFailed(i, down));
    if down {
      assert v.open == {} && v.broken == w.broken + w.open;
    } else {
      assert v.open == w.open && v.broken == w.broken;
    }
  }

  lemma PoolInvNext(w: World, e: Event)
    requires Inv(w) && Enabled(w, e)
    ensures PoolInv(Next(w, e))
  {
    if e.Created? {
      CreatedKeeps(w, e.task);
    } else if e.Closed? {
      ClosedKeeps(w, e.task);
    } else if e.CloseFailed? {
      CloseFailedKeeps(w, e.task, e.down);
    } else {
      assert Next(w, e).(tasks := w.tasks, holder := w.holder) == w;
    }
  }

  lemma InvNext(w: World, e: Event)
    requires Inv(w) && Enabled(w, e)
    ensures Inv(Next(w, e))
  {
    LockInvNext(w, e);
    PoolInvNext(w, e);
  }

  ghost predicate Runs(w: World, events: seq<Event>)
    decreases |events|
  {
    events == [] || (Enabled(w, events[0]) && Runs(Next(w, events[0]), events[1..]))
  }

  function After(w: World, events: seq<Event>): World
    requires Runs(w, events)
    decreases |events|
  {
    if events == [] then w else After(Next(w, events[0]), events[1..])
  }

  lemma {:induction false} InvRun(w: World, events: seq<Event>)
    requires Inv(w) && Runs(w, events)
    ensures Inv(After(w, events))
    decreases |events|
  {
    if events == [] {
    } else {
      InvNext(w, events[0]);
      InvRun(Next(w, events[0]), events[1..]);
    }
  }

  predicate ClosesCleanly(events: seq<Event>) {
    forall e | e in events :: e.CloseFailed? ==> !e.down
  }

  lemma {:induction false} NothingBroken(w: World, events: seq<Event>)
    requires Runs(w, events) && w.broken == {} && ClosesCleanly(events)
    ensures After(w, events).broken == {}
    decreases |events|
  {
    hide LockInv, PoolInv;
    if events == [] {
    } else {
      assert forall e | e in events[1..] :: e in events;
      assert events[0] in events;
      NothingBroken(Next(w, events[0]), events[1..]);
    }
  }

  /** Whatever the interleaving of callers, failures and cancellations: at most one pool is open, it is
      the published one, and every other pool ever created was closed. */
  lemma OnePoolNeverLeaked(events: seq<Event>)
    requires Runs(START, events)
    ensures var w := After(START, events);
            && |w.open| <= 1 && w.created == w.closed + |w.open|
            && (forall p | p in w.open :: w.published == Some(p))
            && (ClosesCleanly(events) ==> w.open == if w.published.Some? then {w.published.value} else {})
  {
    hide Next, Enabled, LockInv;
    InvRun(START, events);
    if ClosesCleanly(events) {
      NothingBroken(START, events);
    }
  }

  /** At most one coroutine at a time is creating or closing. */
  lemma OneInTheLock(events: seq<Event>, i: nat, j: nat)
    requires Runs(START, events)
    requires var w := After(START, events);
             (In(w, i, Creating) || In(w, i, Closing)) && (In(w, j, Creating) || In(w, j, Closing))
    ensures i == j
  {
    hide Next, Enabled;
    InvRun(START, events);
  }

  lemma StepKeepsPool(w: World, e: Event, p: nat, i: nat, q: nat)
    requires LockInv(w) && w.published == Some(p) && Enabled(w, e) && !e.Closed?
    requires In(w, i, Returned(q)) ==> q == p
    ensures var v := Next(w, e);
            v.published == Some(p) && v.created == w.created && (In(v, i, Returned(q)) ==> q == p)
  {
  }

  /** A caller gets the pool that is published at that moment, and the pool stays the published one,
      for every later caller too, until a close of it completes: no second pool is created meanwhile. */
  lemma {:induction false} SamePoolUntilClosed(w: World, events: seq<Event>, p: nat, i: nat, q: nat)
    requires Inv(w) && w.published == Some(p) && Runs(w, events) && forall e | e in events :: !e.Closed?
    requires In(w, i, Returned(q)) ==> q == p
    ensures After(w, events).published == Some(p) && After(w, events).created == w.created
    ensures In(After(w, events), i, Returned(q)) ==> q == p
    decreases |events|
  {
    hide PoolInv, LockInv, Next, Enabled;
    if events == [] {
    } else {
      assert events[0] in events && forall e | e in events[1..] :: e in events;
      InvNext(w, events[0]);
      StepKeepsPool(w, events[0], p, i, q);
      SamePoolUntilClosed(Next(w, events[0]), events[1..], p, i, q);
    }
  }

  lemma {:induction false} AppendRun(w: World, events: seq<Event>, e: Event)
    ensures Runs(w, events + [e]) <==> Runs(w, events) && Enabled(After(w, events), e)
    ensures Runs(w, events + [e]) ==> After(w, events + [e]) == Next(After(w, events), e)
    decreases |events|
  {
    hide Next, Enabled;
    var all := events + [e];
    if events == [] {
      assert all[0] == e && all[1..] == [];
    } else {
      assert all[0] == events[0] && all[1..] == events[1..] + [e];
      if Enabled(w, events[0]) {
        AppendRun(Next(w, events[0]), events[1..], e);
      }
    }
  }

  /** A close failed and took the pool down, and no pool was created since. */
  predicate DownSinceCreated(events: seq<Event>) {
    exists k | 0 <= k < |events| ::
      events[k].CloseFailed? && events[k].down && forall j | k < j < |events| :: !events[j].Created?
  }

  lemma DownAppend(events: seq<Event>, e: Event)
    ensures DownSinceCreated(events + [e]) <==> (e.CloseFailed? && e.down) || (!e.Created? && DownSinceCreated(events))
  {
    var all := events + [e];
    if e.CloseFailed? && e.down {
      assert all[|events|].CloseFailed?;
    } else if !e.Created? && DownSinceCreated(events) {
      var k :| 0 <= k < |events| && events[k].CloseFailed? && events[k].down
               && forall j | k < j < |events| :: !events[j].Created?;
      assert all[k].CloseFailed?;
    }
    if k :| 0 <= k < |all| && all[k].CloseFailed? && all[k].down && forall j | k < j < |all| :: !all[j].Created? {
      if k < |events| {
        assert !all[|events|].Created?;
        forall j | k < j < |events| ensures !events[j].Created? {
          assert !all[j].Created?;
        }
        assert events[k].CloseFailed?;
      }
    }
  }

  lemma StepBreaks(w: World, e: Event)
    requires Inv(w) && Enabled(w, e) && Next(w, e).published.Some?
    ensures var v := Next(w, e);
            v.published.value in v.broken <==>
            (e.CloseFailed? && e.down) || (!e.Created? && w.published.Some? && w.published.value in w.broken)
    ensures !e.Created? ==> w.published == Next(w, e).published
  {
  }

  lemma {:induction false} BrokenIffDown(events: seq<Event>)
    requires Runs(START, events)
    ensures var w := After(START, events);
            w.published.Some? ==> (w.published.value in w.broken <==> DownSinceCreated(events))
  {
    hide Next, Enabled, Inv, DownSinceCreated;
    if events == [] {
    } else {
      var n := |events| - 1;
      assert events == events[..n] + [events[n]];
      AppendRun(START, events[..n], events[n]);
      BrokenIffDown(events[..n]);
      DownAppend(events[..n], events[n]);
      StartInv();
      InvRun(START, events[..n]);
      if After(START, events).published.Some? {
        StepBreaks(After(START, events[..n]), events[n]);
      }
    }
  }

  lemma StartInv()
    ensures Inv(START)
  {
  }

  /** After any history, a caller that finds a pool published gets an open one exactly when no close has
      failed and taken the pool down since the last creation. */
  lemma HandsOutOpenIff(events: seq<Event>, i: nat)
    requires Runs(START, events) && i !in After(START, events).tasks && After(START, events).published.Some?
    ensures var w := After(START, events);
            var p := w.published.value;
            In(Next(w, Get(i)), i, Returned(p)) && (p in w.open <==> !DownSinceCreated(events))
  {
    hide DownSinceCreated;
    InvRun(START, events);
    BrokenIffDown(events);
    var w := After(START, events);
    assert In(Next(w, Get(i)), i, Returned(w.published.value));
  }

  lemma OneMore(w: World, e: Event, events: seq<Event>)
    requires Enabled(w, e) && Runs(Next(w, e), events)
    ensures Runs(w, [e] + events) && After(w, [e] + events) == After(Next(w, e), events)
  {
  }

  /** A caller is served, whatever happened before it, failed creations too. A published pool is
      returned at once, whoever holds the lock, and nothing else moves; with none published and the lock free
      the caller creates the next one, publishes it and returns it, and that is the only one open. */
  lemma CallerIsServed(events: seq<Event>, i: nat)
    requires Runs(START, events)
    requires var w := After(START, events); i !in w.tasks && (w.published.Some? || w.holder.None?)
    ensures var w := After(START, events);
            var calls := if w.published.Some? then [Get(i)] else [Get(i)] + [Locked(i)] + [Created(i)];
            && Runs(w, calls)
            && var v := After(w, calls);
               && v.published == Some(if w.published.Some? then w.published.value else w.created)
               && v.tasks == w.tasks[i := Returned(v.published.value)] && v.holder == w.holder
               && v.open == (if w.published.Some? then w.open else {w.created})
               && v.created == (if w.published.Some? then w.created else w.created + 1)
  {
    InvRun(START, events);
    var w := After(START, events);
    OneMore(w, Get(i), []);
    if w.published.None? {
      var w1 := Next(w, Get(i));
      var w2 := Next(w1, Locked(i));
      OneMore(w2, Created(i), []);
      OneMore(w1, Locked(i), [Created(i)]);
      OneMore(w, Get(i), [Locked(i), Created(i)]);
      assert [Get(i)] + [Locked(i), Created(i)] == [Get(i)] + [Locked(i)] + [Created(i)];
      assert w.tasks[i := GetWaiting][i := Creating][i := Returned(w.created)] == w.tasks[i := Returned(w.created)];
    }
  }

  /** So is one that closes: afterwards nothing is open or published. */
  lemma CloserIsServed(events: seq<Event>, i: nat)
    requires Runs(START, events)
    requires var w := After(START, events); i !in w.tasks && w.holder.None?
    ensures var w := After(START, events);
            var calls := [Close(i)] + [Locked(i)] + (if w.published.Some? then [Closed(i)] else []);
            && Runs(w, calls)
            && var v := After(w, calls);
               && v.published.None? && v.open == {} && v.holder.None? && v.created == w.created
               && v.tasks == w.tasks[i := Finished]
  {
    InvRun(START, events);
    var w := After(START, events);
    var w1 := Next(w, Close(i));
    var rest := if w.published.Some? then [Closed(i)] else [];
    if w.published.Some? {
      var w2 := Next(w1, Locked(i));
      TakenIsLive(w2);
      OneMore(w2, Closed(i), []);
      assert [Closed(i)] + [] == [Closed(i)];
      assert w.tasks[i := CloseWaiting][i := Closing][i := Finished] == w.tasks[i := Finished];
    } else {
      assert w.tasks[i := CloseWaiting][i := Finished] == w.tasks[i := Finished];
    }
    OneMore(w1, Locked(i), rest);
    OneMore(w, Close(i), [Locked(i)] + rest);
    assert [Close(i)] + ([Locked(i)] + rest) == [Close(i)] + [Locked(i)] + rest;
  }

  /** What fails leaves the lock, and the caller learns of it. A creation that fails publishes nothing; a
      close that fails leaves the pool published, open or not; a waiter that is cancelled leaves all to the
      others. */
  lemma FailuresLetGo(events: seq<Event>, e: Event)
    requires Runs(START, events) && Enabled(After(START, events), e)
    requires e.CreateFailed? || e.CloseFailed? || e.Cancelled?
    ensures var w, v := After(START, events), Next(After(START, events), e);
            && v.tasks == w.tasks[e.task := Raised]
            && v.published == w.published && v.created == w.created
            && (if e.Cancelled? then v.holder == w.holder else v.holder.None?)
            && (e.CreateFailed? ==> v.published.None?)
            && v.open == (if e.CloseFailed? && e.down then {} else w.open)
  {
    InvRun(START, events);
    TakenIsLive(After(START, events));
  }

  /** The class run through any history of events ends in the state of the machine, so it never leaks. */
  method Perform(events: seq<Event>) returns (db: Database)
    requires Runs(START, events)
    ensures fresh(db) && db.Snapshot() == After(START, events)
    ensures |db.open| <= 1 && db.created == db.closed + |db.open| && forall p | p in db.open :: db.published == Some(p)
  {
    hide Next, Enabled;
    db := new Database();
    for n := 0 to |events|
      invariant fresh(db) && Runs(START, events[..n]) && db.Snapshot() == After(START, events[..n])
    {
      assert events[..n + 1] == events[..n] + [events[n]];
      AppendRun(START, events[..n], events[n]);
      RunsPrefix(START, events, n + 1);
      db.Handle(events[n]);
    }
    assert events[..|events|] == events;
    OnePoolNeverLeaked(events);
  }

  lemma {:induction false} RunsPrefix(w: World, events: seq<Event>, n: nat)
    requires Runs(w, events) && n <= |events|
    ensures Runs(w, events[..n])
    decreases n
  {
    hide Next, Enabled;
    if n == 0 {
    } else {
      assert events[..n][0] == events[0] && events[..n][1..] == events[1..][..n - 1];
      RunsPrefix(Next(w, events[0]), events[1..], n - 1);
    }
  }

  /** Such a history exists: create, close with a failure that takes the pool down, ask again. */
  lemma DeadPoolHandedOut()
    ensures var events := [Get(0), Locked(0), Created(0), Close(1), Locked(1), CloseFailed(1, true), Get(2)];
            Runs(START, events) && In(After(START, events), 2, Returned(0)) && 0 !in After(START, events).open
  {
    var w0 := START;
    var w1 := Next(w0, Get(0));
    var w2 := Next(w1, Locked(0));
    var w3 := Next(w2, Created(0));
    var w4 := Next(w3, Close(1));
    var w5 := Next(w4, Locked(1));
    var w6 := Next(w5, CloseFailed(1, true));
    var w7 := Next(w6, Get(2));
    assert After(w7, []) == w7;
    StepRun(w6, Get(2), []);
    StepRun(w5, CloseFailed(1, true), [Get(2)]);
    StepRun(w4, Locked(1), [CloseFailed(1, true), Get(2)]);
    StepRun(w3, Close(1), [Locked(1), CloseFailed(1, true), Get(2)]);
    StepRun(w2, Created(0), [Close(1), Locked(1), CloseFailed(1, true), Get(2)]);
    StepRun(w1, Locked(0), [Created(0), Close(1), Locked(1), CloseFailed(1, true), Get(2)]);
    StepRun(w0, Get(0), [Locked(0), Created(0), Close(1), Locked(1), CloseFailed(1, true), Get(2)]);
  }

  lemma StepRun(w: World, e: Event, rest: seq<Event>)
    requires Enabled(w, e) && Runs(Next(w, e), rest)
    ensures Runs(w, [e] + rest) && After(w, [e] + rest) == After(Next(w, e), rest)
  {
  }
}
