/** The replica-drift check of watchdog/replica_drift.py: a table of episodes, one per service, driven
    by polls that list all services at once. Listing the services, or the tasks of one, can raise; the
    exception leaves the check and the loop of watchdog/watchdog.py:319-334 catches it, so the table
    keeps what was done and the alerts of that poll are lost. */
module ReplicaDrift {
  import opened Episodes
  import opened Options

  /** What `service.tasks` does: the states of the tasks, or an exception. */
  datatype Tasks = Listed(states: seq<Option<string>>) | Raises

  datatype Service = Service(name: string, desired: Option<int>, tasks: Tasks)

  datatype DriftAlert = DriftAlert(name: string, signal: Signal, running: nat, desired: int)

  type Table = map<string, Episode>

  function Running(taskStates: seq<Option<string>>): nat {
    if taskStates == [] then 0
    else Running(taskStates[..|taskStates| - 1]) + (if taskStates[|taskStates| - 1] == Some("running") then 1 else 0)
  }

  function Targets(services: seq<Service>, prefix: string): seq<Service> {
    if services == [] then []
    else Targets(services[..|services| - 1], prefix) +
         (if prefix <= services[|services| - 1].name then [services[|services| - 1]] else [])
  }

  lemma {:induction false} RunningIs(taskStates: seq<Option<string>>)
    ensures Running(taskStates) == multiset(taskStates)[Some("running")]
  {
    if taskStates == [] {
    } else {
      var n := |taskStates| - 1;
      RunningIs(taskStates[..n]);
      assert taskStates == taskStates[..n] + [taskStates[n]];
    }
  }

  /** The services whose name begins with the prefix, in their order. */
  lemma {:induction false} TargetsAppend(services: seq<Service>, more: seq<Service>, prefix: string)
    ensures Targets(services + more, prefix) == Targets(services, prefix) + Targets(more, prefix)
  {
    if more == [] {
      assert services + more == services;
    } else {
      var n, all := |more| - 1, services + more;
      TargetsAppend(services, more[..n], prefix);
      assert all[..|all| - 1] == services + more[..n];
      assert all[|all| - 1] == more[n];
    }
  }

  lemma TargetOfOne(s: Service, prefix: string)
    ensures Targets([s], prefix) == if prefix <= s.name then [s] else []
  {
    assert [s][..0] == [];
  }

  function EpisodeOf(table: Table, name: string): Episode {
    if name in table then table[name] else QUIET
  }

  /** Only the tasks of a service with a replica count are listed. */
  predicate Fails(s: Service) {
    s.desired.Some? && s.tasks.Raises?
  }

  /** One service of the loop: a service without a replica count is passed over. */
  function Examined(table: Table, s: Service, now: real, threshold: int): (Table, seq<DriftAlert>)
    requires !Fails(s)
  {
    if s.desired.None? then (table, [])
    else
      var running := Running(s.tasks.states);
      var (e, signal) := Step(EpisodeOf(table, s.name), Poll(running < s.desired.value, now), threshold);
      (table[s.name := e], if signal == Silent then [] else [DriftAlert(s.name, signal, running, s.desired.value)])
  }

  /** An alarm is raised for a service with fewer running tasks than it should have, a recovery for one that
      has them; either says how many of how many. */
  lemma AlertSays(table: Table, s: Service, now: real, threshold: int)
    requires !Fails(s)
    ensures forall a | a in Examined(table, s, now, threshold).1 ::
              && s.desired == Some(a.desired) && a.name == s.name
              && a.running == multiset(s.tasks.states)[Some("running")]
              && (if a.signal.Alarm? then a.running < a.desired else a.signal.Recovery? && a.running >= a.desired)
  {
    if s.desired.Some? {
      RunningIs(s.tasks.states);
    }
  }

  /** The table after the services have been looked at in order, up to the first that raises, and the
      alerts, none if one did. */
  function Visited(table: Table, services: seq<Service>, now: real, threshold: int): (Table, Option<seq<DriftAlert>>) {
    if services == [] then (table, Some([]))
    else
      var (t, alerts) := Visited(table, services[..|services| - 1], now, threshold);
      var s := services[|services| - 1];
      if alerts.None? || Fails(s) then (t, None)
      else
        var (t', more) := Examined(t, s, now, threshold);
        (t', Some(alerts.value + more))
  }

  function Names(services: seq<Service>): set<string> {
    set s | s in services :: s.name
  }

  lemma NamesAppend(services: seq<Service>, s: Service)
    ensures Names(services + [s]) == Names(services) + {s.name}
  {
  }

  /** A whole poll; `listing` is None when listing the services raises. */
  function Checked(table: Table, listing: Option<seq<Service>>, prefix: string, now: real, threshold: int):
    (Table, Option<seq<DriftAlert>>)
  {
    if listing.None? then (table, None)
    else
      var targets := Targets(listing.value, prefix);
      var (t, alerts) := Visited(table, targets, now, threshold);
      if alerts.None? then (t, None) else (map k | k in t && k in Names(targets) :: t[k], alerts)
  }

  class DriftWatch {
    var table: Table

    constructor ()
      ensures table == map[]
    {
      table := map[];
    }

    static method CountRunning(taskStates: seq<Option<string>>) returns (running: nat)
      ensures running == Running(taskStates)
    {
      running := 0;
      for i := 0 to |taskStates|
        invariant running == Running(taskStates[..i])
      {
        assert taskStates[..i + 1][..i] == taskStates[..i];
        if taskStates[i] == Some("running") {
          running := running + 1;
        }
      }
      assert taskStates[..|taskStates|] == taskStates;
    }

    static method Filter(services: seq<Service>, prefix: string) returns (targets: seq<Service>)
      ensures targets == Targets(services, prefix)
    {
      targets := [];
      for i := 0 to |services|
        invariant targets == Targets(services[..i], prefix)
      {
        assert services[..i + 1][..i] == services[..i];
        if prefix <= services[i].name {
          targets := targets + [services[i]];
        }
      }
      assert services[..|services|] == services;
    }

    method Examine(service: Service, now: real, threshold: int) returns (alerts: seq<DriftAlert>)
      requires !Fails(service)
      modifies this
      ensures (table, alerts) == Examined(old(table), service, now, threshold)
    {
      alerts := [];
      if service.desired.None? {
        return;
      }
      var desired := service.desired.value;
      var running := CountRunning(service.tasks.states);
      if service.name !in table {
        table := table[service.name := QUIET];
      }
      var e := table[service.name];
      if running < desired {
        if e.startedAt.None? {
          e := e.(startedAt := Some(now));
        }
        var duration := Trunc(now - e.startedAt.value);
        if !e.alerted && duration >= threshold {
          alerts := [DriftAlert(service.name, Alarm(duration), running, desired)];
          e := e.(alerted := true);
        }
      } else {
        if e.startedAt.Some? && e.alerted {
          alerts := [DriftAlert(service.name, Recovery(Trunc(now - e.startedAt.value)), running, desired)];
        }
        e := QUIET;
      }
      table := table[service.name := e];
      assert table == old(table)[service.name := e];
    }

    /** None stands for the exception. */
    method CheckOnce(listing: Option<seq<Service>>, prefix: string, now: real, threshold: int)
      returns (result: Option<seq<DriftAlert>>)
      modifies this
      ensures (table, result) == Checked(old(table), listing, prefix, now, threshold)
      ensures result.Some? ==> listing.Some? && table.Keys <= Names(Targets(listing.value, prefix))
    {
      hide Examined, Targets;
      if listing.None? {
        return None;
      }
      var alerts: seq<DriftAlert> := [];
      var seen: set<string> := {};
      var targets := Filter(listing.value, prefix);
      for i := 0 to |targets|
        invariant (table, Some(alerts)) == Visited(old(table), targets[..i], now, threshold)
        invariant seen == Names(targets[..i])
      {
        assert targets[..i + 1][..i] == targets[..i];
        assert targets[..i + 1] == targets[..i] + [targets[i]];
        NamesAppend(targets[..i], targets[i]);
        seen := seen + {targets[i].name};
        if Fails(targets[i]) {
          RaisedForGood(old(table), targets, i + 1, now, threshold);
          return None;
        }
        var more := Examine(targets[i], now, threshold);
        alerts := alerts + more;
      }
      assert targets[..|targets|] == targets;
      table := map k | k in table && k in seen :: table[k];
      return Some(alerts);
    }
  }

  /** What follows a service that raises is not looked at. */
  lemma {:induction false} RaisedForGood(table: Table, services: seq<Service>, i: nat, now: real, threshold: int)
    requires i <= |services| && Visited(table, services[..i], now, threshold).1.None?
    ensures Visited(table, services, now, threshold) == Visited(table, services[..i], now, threshold)
    decreases |services| - i
  {
    if i == |services| {
      assert services[..i] == services;
    } else {
      assert services[..i + 1][..i] == services[..i];
      RaisedForGood(table, services, i + 1, now, threshold);
    }
  }

  // ---------------------------------------------------------------- one service's view of the polls

  /** How a poll shows a service: not listed, listed without a replica count, not reached or itself
      raising, or with a count. */
  datatype Look = Gone | Exempt | Unseen | Replicated(running: nat, desired: int)

  /** Some service raises. */
  predicate Broken(services: seq<Service>) {
    exists i | 0 <= i < |services| :: Fails(services[i])
  }

  function LookOf(s: Service): Look {
    if s.desired.None? then Exempt
    else if s.tasks.Raises? then Unseen
    else Replicated(Running(s.tasks.states), s.desired.value)
  }

  /** The loop's look at the name, if it gets there. */
  function LookAt(services: seq<Service>, name: string): Look {
    if services == [] then Gone
    else
      var before := services[..|services| - 1];
      if Broken(before) then LookAt(before, name)
      else if services[|services| - 1].name == name then LookOf(services[|services| - 1])
      else LookAt(before, name)
  }

  /** A poll that raises does not find services missing. */
  function Seen(listing: Option<seq<Service>>, prefix: string, name: string): Look {
    if listing.None? then Unseen
    else
      var look := LookAt(Targets(listing.value, prefix), name);
      if look == Gone && Broken(Targets(listing.value, prefix)) then Unseen else look
  }

  predicate Raised(listing: Option<seq<Service>>, prefix: string) {
    listing.None? || Broken(Targets(listing.value, prefix))
  }

  function Entry(table: Table, name: string): Option<Episode> {
    if name in table then Some(table[name]) else None
  }

  /** The single-service machine: disappearing forgets the episode, having no count or not being looked
      at suspends it. */
  function Single(entry: Option<Episode>, look: Look, now: real, threshold: int): (Option<Episode>, Signal) {
    match look
    case Gone => (None, Silent)
    case Exempt => (entry, Silent)
    case Unseen => (entry, Silent)
    case Replicated(running, desired) =>
      var (e, signal) := Step(if entry.Some? then entry.value else QUIET, Poll(running < desired, now), threshold);
      (Some(e), signal)
  }

  function AlertsFor(alerts: seq<DriftAlert>, name: string): seq<DriftAlert> {
    if alerts == [] then []
    else AlertsFor(alerts[..|alerts| - 1], name) +
         (if alerts[|alerts| - 1].name == name then [alerts[|alerts| - 1]] else [])
  }

  function AlertOf(name: string, look: Look, signal: Signal): seq<DriftAlert> {
    if signal == Silent || !look.Replicated? then [] else [DriftAlert(name, signal, look.running, look.desired)]
  }

  predicate Distinct(services: seq<Service>) {
    forall i, j | 0 <= i < j < |services| :: services[i].name != services[j].name
  }

  lemma {:induction false} GoneIfUnlisted(services: seq<Service>, name: string)
    requires forall i | 0 <= i < |services| :: services[i].name != name
    ensures LookAt(services, name) == Gone
  {
    if services == [] {
    } else {
      GoneIfUnlisted(services[..|services| - 1], name);
    }
  }

  lemma {:induction false} GoneIffUnlisted(services: seq<Service>, name: string)
    requires !Broken(services)
    ensures LookAt(services, name) == Gone <==> name !in Names(services)
  {
    if services == [] {
    } else {
      var n := |services| - 1;
      assert !Broken(services[..n]);
      GoneIffUnlisted(services[..n], name);
      assert services == services[..n] + [services[n]];
    }
  }

  lemma {:induction false} AlertsForAppend(alerts: seq<DriftAlert>, more: seq<DriftAlert>, name: string)
    ensures AlertsFor(alerts + more, name) == AlertsFor(alerts, name) + AlertsFor(more, name)
  {
    if more == [] {
      assert alerts + more == alerts;
    } else {
      var n, all := |more| - 1, alerts + more;
      AlertsForAppend(alerts, more[..n], name);
      assert all[..|all| - 1] == alerts + more[..n];
      assert all[|all| - 1] == more[n];
    }
  }

  lemma ExamineProjects(table: Table, s: Service, now: real, threshold: int, name: string)
    requires !Fails(s)
    ensures var (t, alerts) := Examined(table, s, now, threshold);
            if s.name == name
            then && Entry(t, name) == Single(Entry(table, name), LookOf(s), now, threshold).0
                 && AlertsFor(alerts, name) == AlertOf(name, LookOf(s), Single(Entry(table, name), LookOf(s), now, threshold).1)
            else Entry(t, name) == Entry(table, name) && AlertsFor(alerts, name) == []
  {
    hide Step;
  }

  /** What the loop over the services does to one name. */
  predicate Visits(table: Table, t: Table, alerts: Option<seq<DriftAlert>>, look: Look, now: real, threshold: int, name: string) {
    if look == Gone || look == Unseen then
      Entry(t, name) == Entry(table, name) && (alerts.Some? ==> AlertsFor(alerts.value, name) == [])
    else
      && Entry(t, name) == Single(Entry(table, name), look, now, threshold).0
      && (alerts.Some? ==> AlertsFor(alerts.value, name) == AlertOf(name, look, Single(Entry(table, name), look, now, threshold).1))
  }

  lemma {:induction false} RaisesIffBroken(table: Table, services: seq<Service>, now: real, threshold: int)
    ensures Visited(table, services, now, threshold).1.None? <==> Broken(services)
  {
    hide Fails, Examined;
    if services == [] {
    } else {
      var n := |services| - 1;
      RaisesIffBroken(table, services[..n], now, threshold);
      assert Broken(services[..n]) ==> Broken(services) by {
        if i :| 0 <= i < n && Fails(services[..n][i]) {
          assert Fails(services[i]);
        }
      }
      if i :| 0 <= i < |services| && Fails(services[i]) {
        assert i < n ==> Fails(services[..n][i]);
      }
    }
  }

  lemma VisitJoins(table: Table, t: Table, alerts: seq<DriftAlert>, look: Look, s: Service, now: real, threshold: int, name: string)
    requires Visits(table, t, Some(alerts), look, now, threshold, name)
    requires !Fails(s) && (s.name == name ==> look == Gone)
    ensures var (t', more) := Examined(t, s, now, threshold);
            Visits(table, t', Some(alerts + more), if s.name == name then LookOf(s) else look, now, threshold, name)
  {
    hide Examined, Step, Running;
    ExamineProjects(t, s, now, threshold, name);
    AlertsForAppend(alerts, Examined(t, s, now, threshold).1, name);
  }

  lemma VisitStops(table: Table, t: Table, alerts: seq<DriftAlert>, look: Look, s: Service, now: real, threshold: int, name: string)
    requires Visits(table, t, Some(alerts), look, now, threshold, name)
    requires Fails(s) && (s.name == name ==> look == Gone)
    ensures Visits(table, t, None, if s.name == name then LookOf(s) else look, now, threshold, name)
  {
    hide Step, Running;
  }

  /** Looking at all services is, for each, looking at it alone. */
  lemma {:induction false} VisitProjects(table: Table, services: seq<Service>, now: real, threshold: int, name: string)
    requires Distinct(services)
    ensures var (t, alerts) := Visited(table, services, now, threshold);
            Visits(table, t, alerts, LookAt(services, name), now, threshold, name)
  {
    hide Examined, Broken, Fails, LookOf;
    if services == [] {
    } else {
      var n := |services| - 1;
      var s := services[n];
      VisitProjects(table, services[..n], now, threshold, name);
      RaisesIffBroken(table, services[..n], now, threshold);
      if s.name == name {
        GoneIfUnlisted(services[..n], name);
      }
      var (t, alerts) := Visited(table, services[..n], now, threshold);
      hide Visits;
      if alerts.Some? && Fails(s) {
        VisitStops(table, t, alerts.value, LookAt(services[..n], name), s, now, threshold, name);
      } else if alerts.Some? {
        VisitJoins(table, t, alerts.value, LookAt(services[..n], name), s, now, threshold, name);
      }
    }
  }

  predicate Projects(table: Table, t: Table, alerts: Option<seq<DriftAlert>>, look: Look, now: real, threshold: int, name: string) {
    && Entry(t, name) == Single(Entry(table, name), look, now, threshold).0
    && (alerts.Some? ==> AlertsFor(alerts.value, name) == AlertOf(name, look, Single(Entry(table, name), look, now, threshold).1))
  }

  /** One poll of everything is, for each service, one poll of the single-service machine; its alerts are
      handed back exactly when nothing raised. */
  lemma CheckProjects(table: Table, listing: Option<seq<Service>>, prefix: string, now: real, threshold: int, name: string)
    requires listing.Some? ==> Distinct(Targets(listing.value, prefix))
    ensures var (t, alerts) := Checked(table, listing, prefix, now, threshold);
            && Projects(table, t, alerts, Seen(listing, prefix, name), now, threshold, name)
            && (alerts.None? <==> Raised(listing, prefix))
  {
    hide Visited, LookAt, Targets, AlertsFor, Step, Broken;
    if listing.Some? {
      var targets := Targets(listing.value, prefix);
      VisitProjects(table, targets, now, threshold, name);
      RaisesIffBroken(table, targets, now, threshold);
      if !Broken(targets) {
        GoneIffUnlisted(targets, name);
        NotUnseen(targets, name);
      }
    }
  }

  lemma {:induction false} NotUnseen(services: seq<Service>, name: string)
    requires !Broken(services)
    ensures LookAt(services, name) != Unseen
  {
    if services == [] {
    } else {
      var n := |services| - 1;
      assert !Fails(services[n]) && !Broken(services[..n]);
      NotUnseen(services[..n], name);
    }
  }

  /** A service the loop got to is followed by whatever raises. */
  lemma {:induction false} RaisesLater(services: seq<Service>, name: string, k: nat)
    requires Distinct(services) && k < |services| && services[k].name == name && LookAt(services, name).Replicated?
    ensures Broken(services) <==> exists j | k < j < |services| :: Fails(services[j])
  {
    if i :| 0 <= i <= k && Fails(services[i]) {
      BrokenOff(services, name, i);
    }
  }

  /** Nothing at or behind the first service that raises is looked at. */
  lemma {:induction false} BrokenOff(services: seq<Service>, name: string, i: nat)
    requires i < |services| && Fails(services[i]) && Distinct(services)
    requires forall k | 0 <= k < i :: services[k].name != name
    ensures LookAt(services, name) == Gone || LookAt(services, name) == Unseen
  {
    var n := |services| - 1;
    GoneIfUnlisted(services[..i], name);
    if i == n {
    } else {
      assert Fails(services[..n][i]);
      BrokenOff(services[..n], name, i);
    }
  }

  // ---------------------------------------------------------------- whole histories

  datatype Listing = Listing(services: Option<seq<Service>>, now: real)

  predicate WellListed(history: seq<Listing>, prefix: string) {
    forall l | l in history && l.services.Some? :: Distinct(Targets(l.services.value, prefix))
  }

  function TableAfter(history: seq<Listing>, prefix: string, threshold: int): Table {
    if history == [] then map[]
    else Checked(TableAfter(history[..|history| - 1], prefix, threshold), history[|history| - 1].services, prefix,
                 history[|history| - 1].now, threshold).0
  }

  /** What poll i hands to its caller. */
  function AlertsAt(history: seq<Listing>, prefix: string, threshold: int, i: nat): Option<seq<DriftAlert>>
    requires i < |history|
  {
    Checked(TableAfter(history[..i], prefix, threshold), history[i].services, prefix, history[i].now, threshold).1
  }

  /** The alerts of a service that poll i delivers. */
  function DeliveredAt(history: seq<Listing>, prefix: string, threshold: int, name: string, i: nat): seq<DriftAlert>
    requires i < |history|
  {
    var alerts := AlertsAt(history, prefix, threshold, i);
    if alerts.None? then [] else AlertsFor(alerts.value, name)
  }

  function LookIn(history: seq<Listing>, prefix: string, name: string, i: nat): Look
    requires i < |history|
  {
    Seen(history[i].services, prefix, name)
  }

  predicate RaisedAt(history: seq<Listing>, prefix: string, i: nat)
    requires i < |history|
  {
    Raised(history[i].services, prefix)
  }

  /** The service's own polls among those from a up to, not including, b: those that looked at it. */
  function PollsOf(history: seq<Listing>, prefix: string, name: string, a: nat, b: nat): seq<Poll>
    requires a <= b <= |history|
  {
    if a == b then []
    else
      var look := LookIn(history, prefix, name, b - 1);
      PollsOf(history, prefix, name, a, b - 1) +
      if look.Replicated? then [Poll(look.running < look.desired, history[b - 1].now)] else []
  }

  /** Which of those polls raised, after looking at it. */
  function LostOf(history: seq<Listing>, prefix: string, name: string, a: nat, b: nat): (lost: seq<bool>)
    requires a <= b <= |history|
    ensures |lost| == |PollsOf(history, prefix, name, a, b)|
  {
    if a == b then []
    else
      LostOf(history, prefix, name, a, b - 1) +
      if LookIn(history, prefix, name, b - 1).Replicated? then [RaisedAt(history, prefix, b - 1)] else []
  }

  /** A service that was not listed has no entry. */
  lemma FreshEntry(history: seq<Listing>, prefix: string, threshold: int, name: string, a: nat)
    requires 0 < a <= |history| && WellListed(history, prefix) && LookIn(history, prefix, name, a - 1) == Gone
    ensures Entry(TableAfter(history[..a], prefix, threshold), name) == None
  {
    hide Checked, LookAt, Targets, Step, AlertsFor, Seen, Raised;
    assert history[..a][..a - 1] == history[..a - 1] && history[a - 1] in history;
    CheckProjects(TableAfter(history[..a - 1], prefix, threshold), history[a - 1].services, prefix, history[a - 1].now,
                  threshold, name);
  }

  /** One poll's step of the episode. */
  lemma EpisodeStep(history: seq<Listing>, prefix: string, threshold: int, name: string, n: nat)
    requires n < |history| && WellListed(history, prefix) && LookIn(history, prefix, name, n) != Gone
    ensures var before, after := TableAfter(history[..n], prefix, threshold), TableAfter(history[..n + 1], prefix, threshold);
            var look := LookIn(history, prefix, name, n);
            EpisodeOf(after, name) ==
            if look.Replicated? then Step(EpisodeOf(before, name), Poll(look.running < look.desired, history[n].now), threshold).0
            else EpisodeOf(before, name)
  {
    hide Checked, Seen, Raised, Step, AlertsFor, AlertOf, Distinct, Targets;
    assert history[..n + 1][..n] == history[..n] && history[n] in history;
    CheckProjects(TableAfter(history[..n], prefix, threshold), history[n].services, prefix, history[n].now, threshold, name);
  }

  /** While the service stays listed, its episode is that of its own polls. */
  lemma {:induction false} EntryIsEpisode(history: seq<Listing>, prefix: string, threshold: int, name: string, a: nat, b: nat)
    requires a <= b <= |history| && WellListed(history, prefix)
    requires forall j | a <= j < b :: LookIn(history, prefix, name, j) != Gone
    requires a == 0 || LookIn(history, prefix, name, a - 1) == Gone
    ensures EpisodeOf(TableAfter(history[..b], prefix, threshold), name) ==
            Episodes.After(PollsOf(history, prefix, name, a, b), threshold)
    decreases b
  {
    hide Checked, LookIn, Step, WellListed;
    if a == b {
      if a > 0 {
        FreshEntry(history, prefix, threshold, name, a);
      } else {
        assert history[..0] == [];
      }
    } else {
      var n := b - 1;
      EntryIsEpisode(history, prefix, threshold, name, a, n);
      EpisodeStep(history, prefix, threshold, name, n);
      var polls, last := PollsOf(history, prefix, name, a, n), PollsOf(history, prefix, name, a, b);
      if LookIn(history, prefix, name, n).Replicated? {
        assert last[..|last| - 1] == polls;
      } else {
        assert last == polls;
      }
    }
  }

  /** While a service stays listed, each poll that looks at it delivers exactly what is due on its own
      polls since it appeared, whatever the other services' states do, unless the poll raised: then it
      delivers nothing. */
  lemma ServiceSaysWhatIsDue(history: seq<Listing>, prefix: string, threshold: int, name: string, a: nat, i: nat)
    requires a <= i < |history| && WellListed(history, prefix)
    requires forall j | a <= j <= i :: LookIn(history, prefix, name, j) != Gone
    requires a == 0 || LookIn(history, prefix, name, a - 1) == Gone
    ensures var polls, look := PollsOf(history, prefix, name, a, i + 1), LookIn(history, prefix, name, i);
            DeliveredAt(history, prefix, threshold, name, i) ==
            if RaisedAt(history, prefix, i) || !look.Replicated? then []
            else AlertOf(name, look, Due(polls, threshold, |polls| - 1))
  {
    hide Checked, Seen, Raised, Step, AlertsFor, AlertOf, Due, Said, Distinct, Targets, TableAfter;
    assert history[i] in history;
    CheckProjects(TableAfter(history[..i], prefix, threshold), history[i].services, prefix, history[i].now, threshold, name);
    EntryIsEpisode(history, prefix, threshold, name, a, i);
    var polls, look := PollsOf(history, prefix, name, a, i + 1), LookIn(history, prefix, name, i);
    if look.Replicated? {
      SaidIsStep(polls, PollsOf(history, prefix, name, a, i), Poll(look.running < look.desired, history[i].now), threshold);
      SaysWhatIsDue(polls, threshold, |polls| - 1);
    }
    SilentIsNothing(name, look);
  }

  lemma SaidIsStep(polls: seq<Poll>, before: seq<Poll>, last: Poll, threshold: int)
    requires polls == before + [last]
    ensures Said(polls, threshold, |polls| - 1) == Step(Episodes.After(before, threshold), last, threshold).1
  {
    assert polls[..|polls| - 1] == before;
  }

  lemma SilentIsNothing(name: string, look: Look)
    ensures AlertOf(name, look, Silent) == []
  {
  }

  /** A due alert is delivered exactly when no later target of the same poll raised. */
  lemma DueIsDeliveredIff(history: seq<Listing>, prefix: string, threshold: int, name: string, a: nat, i: nat, k: nat)
    requires a <= i < |history| && WellListed(history, prefix) && history[i].services.Some?
    requires forall j | a <= j <= i :: LookIn(history, prefix, name, j) != Gone
    requires a == 0 || LookIn(history, prefix, name, a - 1) == Gone
    requires LookIn(history, prefix, name, i).Replicated?
    requires var targets := Targets(history[i].services.value, prefix); k < |targets| && targets[k].name == name
    requires var polls := PollsOf(history, prefix, name, a, i + 1); Due(polls, threshold, |polls| - 1) != Silent
    ensures var targets := Targets(history[i].services.value, prefix);
            DeliveredAt(history, prefix, threshold, name, i) != [] <==> !exists j | k < j < |targets| :: Fails(targets[j])
  {
    var polls := PollsOf(history, prefix, name, a, i + 1);
    assert |polls| > 0;
    hide Due, DeliveredAt, PollsOf, Targets, Broken, LookAt;
    assert history[i] in history;
    var targets := Targets(history[i].services.value, prefix);
    ServiceSaysWhatIsDue(history, prefix, threshold, name, a, i);
    RaisesLater(targets, name, k);
    assert RaisedAt(history, prefix, i) <==> Broken(targets);
    assert AlertOf(name, LookIn(history, prefix, name, i), Due(polls, threshold, |polls| - 1)) != [];
  }

  /** What is said on the service's own polls is what the watchdog delivers, but for the lost polls. */
  lemma DeliveredIsSaid(history: seq<Listing>, prefix: string, threshold: int, name: string, a: nat, i: nat)
    requires a <= i < |history| && WellListed(history, prefix)
    requires forall j | a <= j <= i :: LookIn(history, prefix, name, j) != Gone
    requires a == 0 || LookIn(history, prefix, name, a - 1) == Gone
    requires LookIn(history, prefix, name, i).Replicated?
    ensures var polls, lost := PollsOf(history, prefix, name, a, i + 1), LostOf(history, prefix, name, a, i + 1);
            DeliveredAt(history, prefix, threshold, name, i) ==
            AlertOf(name, LookIn(history, prefix, name, i), Delivered(polls, lost, threshold, |polls| - 1))
  {
    hide Due, DeliveredAt, Said, Seen, Raised;
    ServiceSaysWhatIsDue(history, prefix, threshold, name, a, i);
    var polls := PollsOf(history, prefix, name, a, i + 1);
    SaysWhatIsDue(polls, threshold, |polls| - 1);
  }

  // ---------------------------------------------------------------- a lost alarm

  function Down(name: string): Service {
    Service(name, Some(1), Listed([]))
  }

  function Up(name: string): Service {
    Service(name, Some(1), Listed([Some("running")]))
  }

  /** The service a is down until the threshold, while the tasks of b behind it cannot be listed. */
  function LosingHistory(a: string, b: string, threshold: nat): seq<Listing> {
    var broken := [Down(a), Service(b, Some(1), Raises)];
    [Listing(Some(broken), 0.0), Listing(Some(broken), threshold as real), Listing(Some([Up(a), Up(b)]), threshold as real)]
  }

  lemma BothTargets(s: Service, t: Service, prefix: string)
    requires prefix <= s.name && prefix <= t.name
    ensures Targets([s, t], prefix) == [s, t]
  {
    assert [s, t][..1] == [s] && [s][..0] == [];
    assert Targets([s], prefix) == [s];
  }

  lemma BrokenLook(a: string, b: string)
    requires a != b
    ensures var targets := [Down(a), Service(b, Some(1), Raises)];
            Broken(targets) && LookAt(targets, a) == Replicated(0, 1)
  {
    var targets := [Down(a), Service(b, Some(1), Raises)];
    assert Fails(targets[1]);
    assert targets[..1] == [Down(a)] && [Down(a)][..0] == [];
  }

  lemma WholeLook(a: string, b: string)
    requires a != b
    ensures var targets := [Up(a), Up(b)];
            !Broken(targets) && LookAt(targets, a) == Replicated(1, 1)
  {
    var targets := [Up(a), Up(b)];
    assert targets[..1] == [Up(a)] && [Up(a)][..0] == [];
    assert [Some("running")][..0] == [];
    assert Running([Some("running")]) == 1;
  }

  /** So the watchdog can report a recovery of a service it never reported as drifting. */
  lemma AlarmLost(prefix: string, a: string, b: string, threshold: nat)
    requires a != b && prefix <= a && prefix <= b
    ensures var history := LosingHistory(a, b, threshold);
            && DeliveredAt(history, prefix, threshold, a, 0) == DeliveredAt(history, prefix, threshold, a, 1) == []
            && |DeliveredAt(history, prefix, threshold, a, 2)| == 1
            && DeliveredAt(history, prefix, threshold, a, 2)[0].signal.Recovery?
  {
    hide Targets, LookAt, Broken, DeliveredAt, Due, Said;
    var history := LosingHistory(a, b, threshold);
    BothTargets(Down(a), Service(b, Some(1), Raises), prefix);
    BothTargets(Up(a), Up(b), prefix);
    BrokenLook(a, b);
    WholeLook(a, b);
    ServiceSaysWhatIsDue(history, prefix, threshold, a, 0, 0);
    ServiceSaysWhatIsDue(history, prefix, threshold, a, 0, 1);
    LosingPolls(history, prefix, a, threshold);
    DeliveredIsSaid(history, prefix, threshold, a, 0, 2);
    RecoveryWithoutAlarm(threshold);
  }

  lemma LosingPolls(history: seq<Listing>, prefix: string, a: string, threshold: nat)
    requires |history| == 3 && history[0].now == 0.0 && history[1].now == history[2].now == threshold as real
    requires LookIn(history, prefix, a, 0) == LookIn(history, prefix, a, 1) == Replicated(0, 1)
    requires LookIn(history, prefix, a, 2) == Replicated(1, 1)
    requires RaisedAt(history, prefix, 0) && RaisedAt(history, prefix, 1) && !RaisedAt(history, prefix, 2)
    ensures PollsOf(history, prefix, a, 0, 3) ==
            [Poll(true, 0.0), Poll(true, threshold as real), Poll(false, threshold as real)]
    ensures LostOf(history, prefix, a, 0, 3) == [true, true, false]
  {
    hide LookIn, RaisedAt;
    assert PollsOf(history, prefix, a, 0, 1) == [Poll(true, 0.0)];
    assert PollsOf(history, prefix, a, 0, 2) == [Poll(true, 0.0), Poll(true, threshold as real)];
    assert LostOf(history, prefix, a, 0, 1) == [true];
    assert LostOf(history, prefix, a, 0, 2) == [true, true];
  }
}
