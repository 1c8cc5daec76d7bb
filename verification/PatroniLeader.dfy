/** The Patroni leader check of watchdog/patroni_leader.py. */
module PatroniLeader {
  import opened Episodes
  import opened Options

  datatype Member = Member(role: Option<string>, state: Option<string>, name: Option<string>)

  datatype LeaderAlert = LeaderAlert(signal: Signal, leader: Option<string>, memberCount: nat)

  predicate IsLeader(m: Member) {
    (m.role == Some("leader") || m.role == Some("standby_leader")) && m.state == Some("running")
  }

  /** Name of the first running leader; a leader without a name counts as none. */
  method LeaderName(members: seq<Member>) returns (name: Option<string>)
    ensures (forall m | m in members :: m.role !in {Some("leader"), Some("standby_leader")} || m.state != Some("running")) ==>
              name == None
    ensures forall i | 0 <= i < |members| && (forall j | 0 <= j < i :: !IsLeader(members[j])) ::
              members[i].role in {Some("leader"), Some("standby_leader")} && members[i].state == Some("running") ==>
                name == members[i].name
    ensures name == LeaderOf(members)
  {
    for i := 0 to |members|
      invariant forall j | 0 <= j < i :: !IsLeader(members[j])
      invariant LeaderOf(members) == LeaderOf(members[i..])
    {
      if IsLeader(members[i]) {
        return members[i].name;
      }
      assert members[i..][1..] == members[i + 1..];
    }
    return None;
  }

  function LeaderOf(members: seq<Member>): Option<string> {
    if members == [] then None
    else if IsLeader(members[0]) then members[0].name
    else LeaderOf(members[1..])
  }

  function PollOf(members: seq<Member>, now: real): Poll {
    Poll(LeaderOf(members).None?, now)
  }

  class LeaderState {
    var leaderlessStartedAt: Option<real>
    var alerted: bool

    function Snapshot(): Episode
      reads this
    {
      Episode(leaderlessStartedAt, alerted)
    }

    constructor ()
      ensures Snapshot() == QUIET
    {
      leaderlessStartedAt, alerted := None, false;
    }

    /** One poll is one step of the episode machine. */
    method CheckOnce(members: seq<Member>, now: real, alertSec: int) returns (alerts: seq<LeaderAlert>)
      modifies this
      ensures Snapshot() == Step(old(Snapshot()), PollOf(members, now), alertSec).0
      ensures var signal := Step(old(Snapshot()), PollOf(members, now), alertSec).1;
              alerts == if signal == Silent then [] else [LeaderAlert(signal, LeaderOf(members), |members|)]
    {
      var leader := LeaderName(members);
      alerts := [];
      if leader.None? {
        if leaderlessStartedAt.None? {
          leaderlessStartedAt := Some(now);
        }
        var duration := Trunc(now - leaderlessStartedAt.value);
        if !alerted && duration >= alertSec {
          alerts := alerts + [LeaderAlert(Alarm(duration), None, |members|)];
          alerted := true;
        }
      } else {
        if leaderlessStartedAt.Some? && alerted {
          var duration := Trunc(now - leaderlessStartedAt.value);
          alerts := alerts + [LeaderAlert(Recovery(duration), leader, |members|)];
        }
        leaderlessStartedAt := None;
        alerted := false;
      }
    }
  }

  /** The watchdog loop over a whole history of member lists says at each poll what is due. */
  method Watch(history: seq<(seq<Member>, real)>, alertSec: int) returns (signals: seq<Signal>)
    ensures |signals| == |history|
    ensures var polls := seq(|history|, i requires 0 <= i < |history| => PollOf(history[i].0, history[i].1));
            forall i | 0 <= i < |history| :: signals[i] == Due(polls, alertSec, i)
  {
    hide Due, LeaderOf;
    var state := new LeaderState();
    signals := [];
    ghost var polls := seq(|history|, i requires 0 <= i < |history| => PollOf(history[i].0, history[i].1));
    for n := 0 to |history|
      invariant fresh(state) && |signals| == n && state.Snapshot() == Episodes.After(polls[..n], alertSec)
      invariant forall i | 0 <= i < n :: signals[i] == Due(polls, alertSec, i)
    {
      var alerts := state.CheckOnce(history[n].0, history[n].1, alertSec);
      assert polls[..n + 1][..n] == polls[..n];
      SaysWhatIsDue(polls, alertSec, n);
      signals := signals + [if alerts == [] then Silent else alerts[0].signal];
    }
  }
}
