/** The life of the coach's proposals: app/repositories/coach_repo.py and the apply and discard handlers
    of app/routes/creator_coach.py. */
module Coach {
  import opened JsonValues
  import opened Options
  import opened Strings

  datatype Status = Na | Pending | Applied | Superseded | Discarded

  /** A stored coach_messages row; its id is its place in the table, in the order of `created_at`. */
  datatype Message = Message(
    session: nat,
    coach: bool,
    changes: Option<string>,
    override: Option<Blob>,
    section: Option<Blob>,
    status: Status)

  /** The proposal as it is handed to `add_message`. */
  datatype Draft = Draft(changes: Option<string>, override: Option<Blob>, section: Option<Blob>)

  const NOTHING: Draft := Draft(None, None, None)

  predicate Proposes(coach: bool, d: Draft) {
    coach && (d.changes.Some? || d.override.Some? || d.section.Some?)
  }

  /** An empty blob is stored as NULL. */
  function Stored(b: Option<Blob>): Option<Blob> {
    if b.Some? && b.value != map[] then b else None
  }

  // ---------------------------------------------------------------- the three transactions

  function Set(rows: seq<Message>, id: nat, status: Status): seq<Message> {
    if id < |rows| then rows[id := rows[id].(status := status)] else rows
  }

  /** Every pending row of the session, but for one. */
  function SupersededBut(rows: seq<Message>, session: nat, kept: Option<nat>): seq<Message> {
    seq(|rows|, i requires 0 <= i < |rows| =>
      if rows[i].session == session && rows[i].status == Pending && Some(i) != kept
      then rows[i].(status := Superseded) else rows[i])
  }

  function Added(rows: seq<Message>, session: nat, coach: bool, d: Draft): seq<Message> {
    var proposes := Proposes(coach, d);
    (if proposes then SupersededBut(rows, session, None) else rows) +
    [Message(session, coach, d.changes, Stored(d.override), Stored(d.section), if proposes then Pending else Na)]
  }

  function AppliedOver(rows: seq<Message>, session: nat, id: nat): seq<Message> {
    Set(SupersededBut(rows, session, Some(id)), id, Applied)
  }

  function DiscardedAt(rows: seq<Message>, id: nat): seq<Message> {
    if id < |rows| && rows[id].status == Pending then Set(rows, id, Discarded) else rows
  }

  predicate Visible(m: Message) {
    m.coach && (m.changes.Some? || m.override.Some? || m.section.Some?)
  }

  /** The SELECT of `pending_proposal`: newest first, the first match. */
  function PendingProposal(rows: seq<Message>, session: nat): (r: Option<nat>)
    ensures r.Some? ==> r.value < |rows| && rows[r.value].session == session && rows[r.value].status == Pending
                        && Visible(rows[r.value])
  {
    if rows == [] then None
    else
      var m := rows[|rows| - 1];
      if m.session == session && m.status == Pending && Visible(m) then Some(|rows| - 1)
      else PendingProposal(rows[..|rows| - 1], session)
  }

  // ---------------------------------------------------------------- what every transaction keeps

  /** A pending row is the newest proposal of its session. */
  predicate Newest(rows: seq<Message>) {
    && (forall i, j | 0 <= i < j < |rows| && rows[i].session == rows[j].session && rows[j].status != Na ::
          rows[i].status != Pending)
    && (forall i | 0 <= i < |rows| && rows[i].status == Pending :: rows[i].coach)
  }

  datatype Transaction =
    | Add(session: nat, coach: bool, draft: Draft)
    | Apply(session: nat, id: nat)
    | Discard(id: nat)

  /** An apply is for a proposal that `get_proposal_by_id` has found in the session, whatever has become
      of it since. */
  predicate Called(rows: seq<Message>, t: Transaction) {
    t.Apply? ==> t.id < |rows| && rows[t.id].session == t.session && rows[t.id].status != Na
  }

  function Run(rows: seq<Message>, t: Transaction): seq<Message> {
    match t
    case Add(session, coach, d) => Added(rows, session, coach, d)
    case Apply(session, id) => AppliedOver(rows, session, id)
    case Discard(id) => DiscardedAt(rows, id)
  }

  lemma AddKeepsNewest(rows: seq<Message>, session: nat, coach: bool, d: Draft)
    requires Newest(rows)
    ensures Newest(Added(rows, session, coach, d))
  {
    hide Stored;
  }

  lemma ApplyKeepsNewest(rows: seq<Message>, session: nat, id: nat)
    requires Newest(rows) && id < |rows| && rows[id].status != Na
    ensures Newest(AppliedOver(rows, session, id))
  {
  }

  lemma NewestKept(rows: seq<Message>, t: Transaction)
    requires Newest(rows) && Called(rows, t)
    ensures Newest(Run(rows, t))
  {
    match t
    case Add(session, coach, d) => AddKeepsNewest(rows, session, coach, d);
    case Apply(session, id) => ApplyKeepsNewest(rows, session, id);
    case Discard(_) =>
  }

  predicate AllCalled(rows: seq<Message>, ts: seq<Transaction>)
    decreases |ts|
  {
    ts == [] || (Called(rows, ts[0]) && AllCalled(Run(rows, ts[0]), ts[1..]))
  }

  function RunAll(rows: seq<Message>, ts: seq<Transaction>): seq<Message>
    decreases |ts|
  {
    if ts == [] then rows else RunAll(Run(rows, ts[0]), ts[1..])
  }

  /** After any transactions, also those of overlapping requests, a session has at most one pending
      proposal and it is its newest. */
  lemma {:induction false} OnePendingPerSession(rows: seq<Message>, ts: seq<Transaction>)
    requires Newest(rows) && AllCalled(rows, ts)
    ensures Newest(RunAll(rows, ts))
    decreases |ts|
  {
    hide Newest, Run, Called;
    if ts == [] {
    } else {
      NewestKept(rows, ts[0]);
      OnePendingPerSession(Run(rows, ts[0]), ts[1..]);
    }
  }

  /** So the LIMIT 1 of `pending_proposal` has nothing to choose: it finds a row exactly when that row is
      the session's pending one and still shows what it proposes. */
  lemma {:induction false} PendingProposalIsUnique(rows: seq<Message>, session: nat, i: nat)
    requires Newest(rows) && i < |rows|
    ensures PendingProposal(rows, session) == Some(i) <==>
            rows[i].session == session && rows[i].status == Pending && Visible(rows[i])
  {
    var n := |rows| - 1;
    var m := rows[n];
    if !(m.session == session && m.status == Pending && Visible(m)) {
      if i < n {
        PendingProposalIsUnique(rows[..n], session, i);
      }
    }
  }

  /** In any table it finds the newest of the coach's pending messages of the session that propose
      something. */
  lemma {:induction false} PendingProposalIs(rows: seq<Message>, session: nat)
    ensures var found := PendingProposal(rows, session);
            forall i | 0 <= i < |rows| && (found.Some? ==> found.value < i) ::
              !(rows[i].session == session && rows[i].coach && rows[i].status == Pending
                && (rows[i].changes.Some? || rows[i].override.Some? || rows[i].section.Some?))
    ensures var found := PendingProposal(rows, session);
            found.Some? ==> rows[found.value].coach
  {
    if rows == [] {
    } else {
      PendingProposalIs(rows[..|rows| - 1], session);
    }
  }

  /** A new proposal is what `pending_proposal` returns exactly when it proposes something that is not
      an empty blob. With an empty one the session has a pending row that nothing finds. */
  lemma NewProposalFoundIff(rows: seq<Message>, session: nat, d: Draft)
    requires Newest(rows) && Proposes(true, d)
    ensures var after := Added(rows, session, true, d);
            && after[|rows|].status == Pending
            && (PendingProposal(after, session) == Some(|rows|) <==>
                d.changes.Some? || Stored(d.override).Some? || Stored(d.section).Some?)
            && (PendingProposal(after, session) == Some(|rows|) || PendingProposal(after, session) == None)
  {
  }

  predicate Terminal(s: Status) {
    s == Applied || s == Superseded || s == Discarded
  }

  /** A pending row may become anything but na; no other row changes. */
  predicate Lawful(a: Message, b: Message) {
    b == a.(status := b.status) && (a.status == b.status || (a.status == Pending && Terminal(b.status)))
  }

  /** The `applied` update has no status guard: a transaction moves statuses lawfully exactly when it is
      not an apply of a row already superseded or discarded. */
  lemma LawfulIff(rows: seq<Message>, t: Transaction)
    requires Called(rows, t)
    ensures (forall i | 0 <= i < |rows| :: Lawful(rows[i], Run(rows, t)[i])) <==>
            !(t.Apply? && (rows[t.id].status == Superseded || rows[t.id].status == Discarded))
  {
  }

  // ---------------------------------------------------------------- the bot that is changed

  datatype Bot = Bot(instructions: string, overrides: map<string, Json>, sections: seq<Json>)

  datatype World = World(rows: seq<Message>, botOf: map<nat, nat>, bots: map<nat, Bot>, history: seq<nat>)

  datatype Refusal =
    | NotFound
    | NotPending(status: Status)
    | BotGone
    | ServerError
    | SectionMissing
    | SectionLocked
    | Stale
    | NoChange

  /** Refused before the first statement, or raised behind one of them. */
  datatype Outcome<T> = Done(value: T) | Refused(why: Refusal) | Raised

  const SECTION_ID := "section_id"
  const NEW_BODY := "new_body"
  const PREVIOUS_SHA := "previous_body_sha256"
  const SECTION_HEADING := "section_heading"
  const SECTION_EDITABLE := "section_editable"
  const ID := "id"
  const BODY := "body"
  const HEADING := "heading"
  const EDITABLE := "editable"
  const KEY := "key"
  const VALUE := "value"

  /** `bool(j)` */
  predicate Truthy(j: Json) {
    match j
    case Null => false
    case Bool(b) => b
    case Num(n) => n != 0.0
    case Str(s) => s != ""
    case Arr(items) => items != []
    case Obj(fields) => fields != map[]
  }

  /** `isinstance(j, str) and j.strip()` */
  predicate Worded(j: Json) {
    j.Str? && Strip(j.s) != ""
  }

  predicate HasId(j: Json, id: string) {
    j.Obj? && Get(j.fields, ID) == Str(id)
  }

  /** First section with the id, or the number of sections. */
  function Locate(sections: seq<Json>, id: string): (k: nat)
    ensures k <= |sections|
    ensures k < |sections| ==> HasId(sections[k], id)
    ensures forall j | 0 <= j < k :: !HasId(sections[j], id)
  {
    if sections == [] then 0
    else if HasId(sections[0], id) then 0
    else
      var k := Locate(sections[1..], id);
      assert forall j | 1 <= j < k + 1 :: sections[j] == sections[1..][j - 1];
      k + 1
  }

  /** `sec.get("body") or ""`, where it is text. */
  function LiveBody(sec: Blob): Option<string> {
    var b := Get(sec, BODY);
    if !Truthy(b) then Some("") else if b.Str? then Some(b.s) else None
  }

  /** The section lane: the new list of sections, or why not. `digest` is sha256. */
  function SectionApplied(sections: seq<Json>, blob: Blob, digest: string -> string): (r: Outcome<seq<Json>>)
    ensures !r.Raised? && r != Refused(NotFound)
  {
    var id, body, sha := Get(blob, SECTION_ID), Get(blob, NEW_BODY), Get(blob, PREVIOUS_SHA);
    if !Worded(id) || !Worded(body) then Refused(ServerError)
    else
      var k := Locate(sections, id.s);
      if k == |sections| then Refused(SectionMissing)
      else
        var target := sections[k].fields;
        if Get(target, EDITABLE) == Bool(false) then Refused(SectionLocked)
        else if LiveBody(target).None? then Refused(ServerError)
        else if sha.Str? && sha.s != "" && sha.s != digest(Strip(LiveBody(target).value)) then Refused(Stale)
        else Done(sections[k := Obj(target[BODY := body])])
  }

  /** What one pending proposal does to the bot: the lane is picked by what the row holds. */
  function Changed(bot: Bot, m: Message, digest: string -> string): (r: Outcome<Bot>)
    ensures !r.Raised?
  {
    if m.section.Some? then
      match SectionApplied(bot.sections, m.section.value, digest)
      case Done(sections) => Done(bot.(sections := sections))
      case Refused(why) => Refused(why)
    else if m.override.Some? then
      var key := Get(m.override.value, KEY);
      var value := if VALUE in m.override.value then m.override.value[VALUE] else Str("set");
      if !Truthy(key) || !key.Str? || !(value.Str? || value.Null?) then Refused(ServerError)
      else Done(bot.(overrides := bot.overrides[key.s := value]))
    else
      var text := if m.changes.Some? then m.changes.value else "";
      if text == bot.instructions then Refused(NoChange) else Done(bot.(instructions := text))
  }

  /** `get_proposal_by_id` */
  predicate Found(rows: seq<Message>, session: nat, id: nat) {
    id < |rows| && rows[id].session == session && Visible(rows[id])
  }

  predicate OverrideLane(m: Message) {
    m.section.None? && m.override.Some?
  }

  predicate TextLane(m: Message) {
    m.section.None? && m.override.None?
  }

  /** The checks of POST /apply, for a session that exists and is the caller's: what the bot would become,
      or why not. */
  function Ready(w: World, session: nat, id: nat, digest: string -> string): (r: Outcome<Bot>)
    ensures !r.Raised?
    ensures r.Done? ==> Found(w.rows, session, id) && w.rows[id].status == Pending
                        && session in w.botOf && w.botOf[session] in w.bots
  {
    if !Found(w.rows, session, id) then Refused(NotFound)
    else if w.rows[id].status != Pending then Refused(NotPending(w.rows[id].status))
    else if session !in w.botOf || w.botOf[session] !in w.bots then Refused(BotGone)
    else Changed(w.bots[w.botOf[session]], w.rows[id], digest)
  }

  /** Four statements follow: audit row and bot update, in the override lane the other way round, then
      the statuses, then the receipt. `done` of them take effect before the handler raises. */
  predicate AuditLanded(m: Message, done: nat) {
    done >= 2 || (done == 1 && !OverrideLane(m))
  }

  predicate BotLanded(m: Message, done: nat) {
    done >= 2 || (done == 1 && OverrideLane(m))
  }

  function ApplyProposal(w: World, session: nat, id: nat, digest: string -> string, done: nat): (World, Outcome<()>) {
    match Ready(w, session, id, digest)
    case Refused(why) => (w, Refused(why))
    case Done(bot) =>
      var m := w.rows[id];
      (w.(bots := if BotLanded(m, done) then w.bots[w.botOf[session] := bot] else w.bots,
          history := if AuditLanded(m, done) then w.history + [id] else w.history,
          rows := if done < 3 then w.rows
                  else if done == 3 then AppliedOver(w.rows, session, id)
                  else Added(AppliedOver(w.rows, session, id), session, true, NOTHING)),
       if done >= 4 then Done(()) else Raised)
  }

  /** POST /discard: refused unless pending or already discarded. */
  function DiscardProposal(w: World, session: nat, id: nat): (World, Outcome<bool>) {
    if !Found(w.rows, session, id) then (w, Refused(NotFound))
    else if w.rows[id].status != Pending && w.rows[id].status != Discarded then (w, Refused(NotPending(w.rows[id].status)))
    else (w.(rows := DiscardedAt(w.rows, id)), Done(w.rows[id].status == Pending))
  }

  // ---------------------------------------------------------------- the store and the two handlers

  class CoachStore {
    var rows: seq<Message>
    var bots: map<nat, Bot>
    var history: seq<nat>
    const botOf: map<nat, nat>

    function Snapshot(): World
      reads this
    {
      World(rows, botOf, bots, history)
    }

    constructor (botOf: map<nat, nat>, bots: map<nat, Bot>)
      ensures Snapshot() == World([], botOf, bots, []) && Newest(rows)
    {
      rows, history := [], [];
      this.bots, this.botOf := bots, botOf;
    }

    method AddMessage(session: nat, coach: bool, d: Draft) returns (id: nat)
      modifies this`rows
      ensures rows == Added(old(rows), session, coach, d) && id == |old(rows)|
      ensures |rows| == id + 1 && rows[id].session == session && rows[id].coach == coach && rows[id].changes == d.changes
      ensures rows[id].status == if coach && d != NOTHING then Pending else Na
      ensures forall i | 0 <= i < id ::
                rows[i] == if coach && d != NOTHING && old(rows)[i].session == session && old(rows)[i].status == Pending
                           then old(rows)[i].(status := Superseded) else old(rows)[i]
      ensures old(Newest(rows)) ==> Newest(rows)
    {
      NewestKeptBy(rows, Add(session, coach, d));
      id := |rows|;
      var status := Na;
      if Proposes(coach, d) {
        status := Pending;
        rows := SupersededBut(rows, session, None);
      }
      rows := rows + [Message(session, coach, d.changes, Stored(d.override), Stored(d.section), status)];
    }

    method SupersedeAndApply(session: nat, id: nat)
      requires Called(rows, Apply(session, id))
      modifies this`rows
      ensures rows == AppliedOver(old(rows), session, id)
      ensures |rows| == |old(rows)| && rows[id] == old(rows)[id].(status := Applied)
      ensures forall i | 0 <= i < |rows| && i != id ::
                rows[i] == if old(rows)[i].session == session && old(rows)[i].status == Pending
                           then old(rows)[i].(status := Superseded) else old(rows)[i]
      ensures old(Newest(rows)) ==> Newest(rows)
      ensures forall i | 0 <= i < |rows| && rows[i].session == session :: rows[i].status != Pending
    {
      NewestKeptBy(rows, Apply(session, id));
      rows := SupersededBut(rows, session, Some(id));
      rows := rows[id := rows[id].(status := Applied)];
    }

    method MarkDiscarded(id: nat)
      modifies this`rows
      ensures rows == DiscardedAt(old(rows), id)
      ensures |rows| == |old(rows)| && forall i | 0 <= i < |rows| ::
                rows[i] == if i == id && old(rows)[i].status == Pending then old(rows)[i].(status := Discarded) else old(rows)[i]
      ensures old(Newest(rows)) ==> Newest(rows)
    {
      NewestKeptBy(rows, Discard(id));
      if id < |rows| && rows[id].status == Pending {
        rows := rows[id := rows[id].(status := Discarded)];
      }
    }

    method PostApply(session: nat, id: nat, digest: string -> string, done: nat) returns (r: Outcome<()>)
      modifies this
      ensures (Snapshot(), r) == ApplyProposal(old(Snapshot()), session, id, digest, done)
      ensures r.Refused? ==> Snapshot() == old(Snapshot())
      ensures r == Refused(NotFound) <==>
                !(id < |old(rows)| && old(rows)[id].session == session && old(rows)[id].coach
                  && (old(rows)[id].changes.Some? || old(rows)[id].override.Some? || old(rows)[id].section.Some?))
      ensures r.Done? ==>
                && done >= 4 && Found(old(rows), session, id) && old(rows)[id].status == Pending
                && |rows| == |old(rows)| + 1 && rows[id].status == Applied && history == old(history) + [id]
    {
      hide SectionApplied;
      if !Found(rows, session, id) {
        return Refused(NotFound);
      }
      var m := rows[id];
      if m.status != Pending {
        return Refused(NotPending(m.status));
      }
      if session !in botOf || botOf[session] !in bots {
        return Refused(BotGone);
      }
      var b := botOf[session];
      var bot := bots[b];
      if m.section.Some? {
        var lane := SectionLane(bot.sections, m.section.value, digest);
        if lane.Refused? {
          return Refused(lane.why);
        }
        if done == 0 {
          return Raised;
        }
        history := history + [id];
        if done == 1 {
          return Raised;
        }
        bots := bots[b := bot.(sections := lane.value)];
      } else if m.override.Some? {
        var key := Get(m.override.value, KEY);
        var value := if VALUE in m.override.value then m.override.value[VALUE] else Str("set");
        if !Truthy(key) || !key.Str? || !(value.Str? || value.Null?) {
          return Refused(ServerError);
        }
        if done == 0 {
          return Raised;
        }
        bots := bots[b := bot.(overrides := bot.overrides[key.s := value])];
        if done == 1 {
          return Raised;
        }
        history := history + [id];
      } else {
        var text := if m.changes.Some? then m.changes.value else "";
        if text == bot.instructions {
          return Refused(NoChange);
        }
        if done == 0 {
          return Raised;
        }
        history := history + [id];
        if done == 1 {
          return Raised;
        }
        bots := bots[b := bot.(instructions := text)];
      }
      if done == 2 {
        return Raised;
      }
      SupersedeAndApply(session, id);
      if done == 3 {
        return Raised;
      }
      var receipt := AddMessage(session, true, NOTHING);
      return Done(());
    }

    method PostDiscard(session: nat, id: nat) returns (r: Outcome<bool>)
      modifies this
      ensures (Snapshot(), r) == DiscardProposal(old(Snapshot()), session, id)
      ensures r.Done? <==> Found(old(rows), session, id) && (old(rows)[id].status == Pending || old(rows)[id].status == Discarded)
      ensures r.Done? ==> rows[id].status == Discarded && r.value == (old(rows)[id].status == Pending)
      ensures r.Refused? ==> r.why == if Found(old(rows), session, id) then NotPending(old(rows)[id].status) else NotFound
      ensures bots == old(bots) && history == old(history) && |rows| == |old(rows)|
      ensures forall i | 0 <= i < |rows| && (i != id || !r.Done?) :: rows[i] == old(rows)[i]
    {
      if !Found(rows, session, id) {
        return Refused(NotFound);
      }
      var status := rows[id].status;
      if status != Pending && status != Discarded {
        return Refused(NotPending(status));
      }
      MarkDiscarded(id);
      return Done(status == Pending);
    }
  }

  lemma NewestKeptBy(rows: seq<Message>, t: Transaction)
    requires Called(rows, t)
    ensures Newest(rows) ==> Newest(Run(rows, t))
  {
    if Newest(rows) {
      NewestKept(rows, t);
    }
  }

  /** The section lane of the apply handler. */
  method SectionLane(sections: seq<Json>, blob: Blob, digest: string -> string) returns (r: Outcome<seq<Json>>)
    ensures r == SectionApplied(sections, blob, digest)
  {
    var id, body, claimed := Get(blob, SECTION_ID), Get(blob, NEW_BODY), Get(blob, PREVIOUS_SHA);
    if !Worded(id) || !Worded(body) {
      return Refused(ServerError);
    }
    var k := 0;
    while k < |sections| && !HasId(sections[k], id.s)
      invariant k <= |sections| && forall j | 0 <= j < k :: !HasId(sections[j], id.s)
    {
      k := k + 1;
    }
    if k == |sections| {
      return Refused(SectionMissing);
    }
    var target := sections[k].fields;
    if Get(target, EDITABLE) == Bool(false) {
      return Refused(SectionLocked);
    }
    var live := LiveBody(target);
    if live.None? {
      return Refused(ServerError);
    }
    if claimed.Str? && claimed.s != "" && claimed.s != digest(Strip(live.value)) {
      return Refused(Stale);
    }
    return Done(sections[k := Obj(target[BODY := body])]);
  }

  // ---------------------------------------------------------------- requests one after another

  datatype Request =
    | Send(session: nat, coach: bool, draft: Draft)
    | ToApply(session: nat, id: nat, done: nat)
    | ToDiscard(session: nat, id: nat)

  function Handled(w: World, r: Request, digest: string -> string): World {
    match r
    case Send(session, coach, d) => w.(rows := Added(w.rows, session, coach, d))
    case ToApply(session, id, done) => ApplyProposal(w, session, id, digest, done).0
    case ToDiscard(session, id) => DiscardProposal(w, session, id).0
  }

  function HandledAll(w: World, rs: seq<Request>, digest: string -> string): World
    decreases |rs|
  {
    if rs == [] then w else HandledAll(Handled(w, rs[0], digest), rs[1..], digest)
  }

  /** Rows are only appended, and what was there has moved lawfully. */
  predicate Grown(a: seq<Message>, b: seq<Message>) {
    |a| <= |b| && forall i | 0 <= i < |a| :: Lawful(a[i], b[i])
  }

  lemma GrownTrans(a: seq<Message>, b: seq<Message>, c: seq<Message>)
    requires Grown(a, b) && Grown(b, c)
    ensures Grown(a, c)
  {
  }

  lemma GrownSame(rows: seq<Message>)
    ensures Grown(rows, rows)
  {
  }

  lemma AppliedGrows(rows: seq<Message>, session: nat, id: nat)
    requires id < |rows| && rows[id].status == Pending
    ensures Grown(rows, AppliedOver(rows, session, id)) && |AppliedOver(rows, session, id)| == |rows|
    ensures forall k | 0 <= k < |rows| ::
              AppliedOver(rows, session, id)[k].status == Applied <==> rows[k].status == Applied || k == id
  {
  }

  lemma AddedGrows(rows: seq<Message>, session: nat, coach: bool, d: Draft)
    ensures Grown(rows, Added(rows, session, coach, d)) && |Added(rows, session, coach, d)| == |rows| + 1
    ensures forall k | 0 <= k < |rows| :: Added(rows, session, coach, d)[k].status == Applied <==> rows[k].status == Applied
    ensures Added(rows, session, coach, d)[|rows|].status != Applied
  {
  }

  lemma HandledKeeps(w: World, r: Request, digest: string -> string)
    requires Newest(w.rows)
    ensures var v := Handled(w, r, digest); Newest(v.rows) && Grown(w.rows, v.rows)
  {
    match r
    case Send(session, coach, d) =>
      NewestKept(w.rows, Add(session, coach, d));
      AddedGrows(w.rows, session, coach, d);
    case ToApply(session, id, done) => ApplyKeeps(w, session, id, digest, done);
    case ToDiscard(session, id) => NewestKept(w.rows, Discard(id));
  }

  lemma ApplyKeeps(w: World, session: nat, id: nat, digest: string -> string, done: nat)
    requires Newest(w.rows)
    ensures var v := ApplyProposal(w, session, id, digest, done).0; Newest(v.rows) && Grown(w.rows, v.rows)
  {
    hide Newest, Grown, AppliedOver, Added, Changed;
    GrownSame(w.rows);
    if Ready(w, session, id, digest).Done? {
      var mid := AppliedOver(w.rows, session, id);
      NewestKept(w.rows, Apply(session, id));
      AppliedGrows(w.rows, session, id);
      NewestKept(mid, Add(session, true, NOTHING));
      AddedGrows(mid, session, true, NOTHING);
      GrownTrans(w.rows, mid, Added(mid, session, true, NOTHING));
    }
  }

  /** Requests that do not overlap: whatever they are and wherever an apply raises, statuses move only from
      pending to applied, superseded or discarded and never leave those. */
  lemma {:induction false} StatusesAreFinal(w: World, rs: seq<Request>, digest: string -> string)
    requires Newest(w.rows)
    ensures var v := HandledAll(w, rs, digest); Newest(v.rows) && Grown(w.rows, v.rows)
    decreases |rs|
  {
    hide Newest, Handled;
    if rs == [] {
      GrownSame(w.rows);
    } else {
      HandledKeeps(w, rs[0], digest);
      var v := Handled(w, rs[0], digest);
      StatusesAreFinal(v, rs[1..], digest);
      GrownTrans(w.rows, v.rows, HandledAll(w, rs, digest).rows);
    }
  }

  /** An applied proposal is refused ever after, both to apply and to discard, even if only the receipt is
      missing; the older applied rows of the session stay applied, so there may be several. */
  lemma AppliedOnce(w: World, session: nat, id: nat, rs: seq<Request>, digest: string -> string, done: nat, again: nat)
    requires Newest(w.rows) && Ready(w, session, id, digest).Done? && done >= 3
    ensures var v := HandledAll(ApplyProposal(w, session, id, digest, done).0, rs, digest);
            && ApplyProposal(v, session, id, digest, again) == (v, Refused(NotPending(Applied)))
            && DiscardProposal(v, session, id) == (v, Refused(NotPending(Applied)))
            && |w.rows| <= |v.rows|
            && forall k | 0 <= k < |w.rows| && w.rows[k].status == Applied :: v.rows[k].status == Applied
  {
    hide Newest, Changed, HandledAll, AppliedOver, Added;
    var u := ApplyProposal(w, session, id, digest, done).0;
    HandledKeeps(w, ToApply(session, id, done), digest);
    StatusesAreFinal(u, rs, digest);
    AppliedGrows(w.rows, session, id);
    AddedGrows(AppliedOver(w.rows, session, id), session, true, NOTHING);
    assert u.rows[id].status == Applied;
  }

  // ---------------------------------------------------------------- the audit trail

  predicate IsApplied(rows: seq<Message>, k: nat) {
    k < |rows| && rows[k].status == Applied
  }

  /** An apply of k that raises behind its audit row and before the statuses move. */
  predicate LeavesOrphan(w: World, r: Request, digest: string -> string, k: nat) {
    r.ToApply? && r.id == k && Ready(w, r.session, k, digest).Done? && AuditLanded(w.rows[k], r.done) && r.done < 3
  }

  function Orphans(w: World, rs: seq<Request>, digest: string -> string, k: nat): nat
    decreases |rs|
  {
    if rs == [] then 0
    else (if LeavesOrphan(w, rs[0], digest, k) then 1 else 0) + Orphans(Handled(w, rs[0], digest), rs[1..], digest, k)
  }

  /** The trail names k once if it is applied, and once more for each orphan counted in n. */
  predicate Named(w: World, k: nat, n: nat) {
    multiset(w.history)[k] == n + if IsApplied(w.rows, k) then 1 else 0
  }

  lemma HandledNames(w: World, r: Request, digest: string -> string, k: nat, n: nat)
    requires Named(w, k, n)
    ensures Named(Handled(w, r, digest), k, n + if LeavesOrphan(w, r, digest, k) then 1 else 0)
  {
    hide Changed, AppliedOver, Added;
    match r
    case Send(session, coach, d) => AddedGrows(w.rows, session, coach, d);
    case ToApply(session, id, done) =>
      if Ready(w, session, id, digest).Done? {
        AppliedGrows(w.rows, session, id);
        AddedGrows(AppliedOver(w.rows, session, id), session, true, NOTHING);
      }
    case ToDiscard(session, id) =>
  }

  lemma {:induction false} TrailCounts(w: World, rs: seq<Request>, digest: string -> string, k: nat, n: nat)
    requires Named(w, k, n)
    ensures Named(HandledAll(w, rs, digest), k, n + Orphans(w, rs, digest, k))
    decreases |rs|
  {
    hide Named, Handled, LeavesOrphan;
    if rs == [] {
    } else {
      HandledNames(w, rs[0], digest, k, n);
      TrailCounts(Handled(w, rs[0], digest), rs[1..], digest, k, n + if LeavesOrphan(w, rs[0], digest, k) then 1 else 0);
    }
  }

  /** From an empty store: an applied proposal is named in the audit trail exactly once, and another one not
      at all, exactly when no apply of it raised between its audit row and the statuses. */
  lemma AuditedIff(w: World, rs: seq<Request>, digest: string -> string, k: nat)
    requires w.rows == [] && w.history == []
    ensures var v := HandledAll(w, rs, digest);
            multiset(v.history)[k] == (if IsApplied(v.rows, k) then 1 else 0) <==> Orphans(w, rs, digest, k) == 0
  {
    TrailCounts(w, rs, digest, k, 0);
  }

  // ---------------------------------------------------------------- what a section apply may touch

  /** Length, order, ids and every field but the target's body stay. */
  lemma SectionApplyTouchesOneBody(sections: seq<Json>, blob: Blob, digest: string -> string)
    requires SectionApplied(sections, blob, digest).Done?
    ensures var after := SectionApplied(sections, blob, digest).value;
            var k := Locate(sections, Get(blob, SECTION_ID).s);
            && |after| == |sections|
            && (forall j | 0 <= j < |sections| && j != k :: after[j] == sections[j])
            && k < |sections| && after[k].Obj? && Get(after[k].fields, BODY) == Get(blob, NEW_BODY)
            && (forall f | f != BODY :: Get(after[k].fields, f) == Get(sections[k].fields, f))
            && (forall j, id | 0 <= j < |sections| :: HasId(after[j], id) <==> HasId(sections[j], id))
  {
  }

  /** Section k is the first with the id. */
  predicate FirstWith(sections: seq<Json>, id: string, k: nat) {
    && k < |sections| && sections[k].Obj? && Get(sections[k].fields, "id") == Str(id)
    && forall j | 0 <= j < k && sections[j].Obj? :: Get(sections[j].fields, "id") != Str(id)
  }

  /** The body a section is taken to have: the text it says, none where what it says is missing or empty. Any
      other value is not text. */
  lemma LiveBodyIs(sec: Blob)
    ensures var b := Get(sec, "body");
            LiveBody(sec) == if b in {Null, Bool(false), Num(0.0), Str(""), Arr([]), Obj(map[])} then Some("")
                             else if b.Str? then Some(b.s) else None
  {
  }

  predicate ReadOnly(section: Json) {
    section.Obj? && Get(section.fields, EDITABLE) == Bool(false)
  }

  /** The proposal claims a hash, and it is not that of the body. */
  predicate Disagrees(blob: Blob, body: string, digest: string -> string) {
    var claimed := Get(blob, PREVIOUS_SHA);
    claimed.Str? && claimed.s != "" && claimed.s != digest(Strip(body))
  }

  /** Id and new body are text, and not blank. */
  predicate WellWorded(blob: Blob) {
    && Get(blob, SECTION_ID).Str? && Strip(Get(blob, SECTION_ID).s) != ""
    && Get(blob, NEW_BODY).Str? && Strip(Get(blob, NEW_BODY).s) != ""
  }

  /** Which proposals change a section. With a worded id and a worded new body, and k the first section that
      has the id, the proposal is carried out exactly when that section is not read-only, has text for a
      body, and agrees with any claimed hash; then its body becomes the new one. */
  lemma SectionLaneIff(sections: seq<Json>, blob: Blob, digest: string -> string, k: nat)
    requires WellWorded(blob) && FirstWith(sections, Get(blob, SECTION_ID).s, k)
    ensures var r, live := SectionApplied(sections, blob, digest), LiveBody(sections[k].fields);
            && (r.Done? <==> !ReadOnly(sections[k]) && live.Some? && !Disagrees(blob, live.value, digest))
            && (r == Refused(SectionLocked) <==> ReadOnly(sections[k]))
            && (r == Refused(Stale) <==> !ReadOnly(sections[k]) && live.Some? && Disagrees(blob, live.value, digest))
            && (r.Done? ==> r.value == sections[k := Obj(sections[k].fields[BODY := Get(blob, NEW_BODY)])])
  {
    assert Locate(sections, Get(blob, SECTION_ID).s) == k;
  }

  /** And no other is. */
  lemma SectionLaneNeeds(sections: seq<Json>, blob: Blob, digest: string -> string)
    ensures var r := SectionApplied(sections, blob, digest);
            && (!WellWorded(blob) ==> r == Refused(ServerError))
            && (r == Refused(SectionMissing) <==>
                WellWorded(blob) && forall k | 0 <= k < |sections| :: !HasId(sections[k], Get(blob, SECTION_ID).s))
            && (r.Done? ==> WellWorded(blob) && exists k: nat :: FirstWith(sections, Get(blob, SECTION_ID).s, k))
  {
    if WellWorded(blob) {
      var id := Get(blob, SECTION_ID).s;
      assert Locate(sections, id) < |sections| ==> FirstWith(sections, id, Locate(sections, id));
    }
  }

  /** What a proposal that is carried out does to the bot, and when it is. A section lane changes sections
      alone; an override sets its key, to "set" if it names no value, and no other; a text becomes the
      instructions, unless it is them already. */
  lemma LanesChange(bot: Bot, m: Message, digest: string -> string)
    ensures var r := Changed(bot, m, digest);
            && (m.section.Some? ==>
                  && (r.Done? <==> SectionApplied(bot.sections, m.section.value, digest).Done?)
                  && (r.Done? ==> r.value.instructions == bot.instructions && r.value.overrides == bot.overrides
                                  && Done(r.value.sections) == SectionApplied(bot.sections, m.section.value, digest)))
            && (OverrideLane(m) ==>
                  var key := Get(m.override.value, KEY);
                  var bare := VALUE !in m.override.value;
                  && (r.Done? <==> key.Str? && key.s != "" && (bare || m.override.value[VALUE].Str? || m.override.value[VALUE].Null?))
                  && (r.Done? ==> r.value.instructions == bot.instructions && r.value.sections == bot.sections
                                  && r.value.overrides.Keys == bot.overrides.Keys + {key.s}
                                  && r.value.overrides[key.s] == (if bare then Str("set") else m.override.value[VALUE])
                                  && forall x | x in bot.overrides && x != key.s :: r.value.overrides[x] == bot.overrides[x]))
            && (TextLane(m) ==>
                  && (r.Refused? <==> bot.instructions == if m.changes.Some? then m.changes.value else "")
                  && (r.Refused? ==> r.why == NoChange)
                  && (r.Done? ==> r.value.sections == bot.sections && r.value.overrides == bot.overrides
                                  && r.value.instructions == if m.changes.Some? then m.changes.value else ""))
  {
    hide SectionApplied;
  }

  /** What a proposal says reaches the bot. Sent and then applied, with nothing between, it is found as it
      was drafted; the apply goes through exactly when its lane does, and then it changes the session's bot
      and no other, as the lane says. */
  lemma ProposalReachesBot(w: World, session: nat, d: Draft, digest: string -> string)
    requires session in w.botOf && w.botOf[session] in w.bots
    requires d.changes.Some? || Stored(d.override).Some? || Stored(d.section).Some?
    ensures var id, b := |w.rows|, w.botOf[session];
            var u := Handled(w, Send(session, true, d), digest);
            var changed := Changed(w.bots[b], Message(session, true, d.changes, Stored(d.override), Stored(d.section), Pending), digest);
            var (v, r) := ApplyProposal(u, session, id, digest, 4);
            && PendingProposal(u.rows, session) == Some(id)
            && (r.Done? <==> changed.Done?) && (r.Refused? ==> changed == Refused(r.why))
            && (r.Done? ==> v.bots == w.bots[b := changed.value] && v.rows[id].status == Applied && v.history == w.history + [id])
            && (!r.Done? ==> v == u && u.bots == w.bots)
  {
    hide Changed;
  }

  /** A read-only section is the same afterwards. */
  predicate ReadOnlyKept(before: map<nat, Bot>, after: map<nat, Bot>) {
    after.Keys == before.Keys && forall b | b in before ::
      && |after[b].sections| == |before[b].sections|
      && forall j | 0 <= j < |before[b].sections| && ReadOnly(before[b].sections[j]) ::
           after[b].sections[j] == before[b].sections[j]
  }

  lemma HandledKeepsReadOnly(w: World, r: Request, digest: string -> string)
    ensures ReadOnlyKept(w.bots, Handled(w, r, digest).bots)
  {
    if r.ToApply? && Ready(w, r.session, r.id, digest).Done? {
      var bot, m := w.bots[w.botOf[r.session]], w.rows[r.id];
      LanesChange(bot, m, digest);
      if m.section.Some? {
        SectionLaneNeeds(bot.sections, m.section.value, digest);
        var k: nat :| FirstWith(bot.sections, Get(m.section.value, SECTION_ID).s, k);
        SectionLaneIff(bot.sections, m.section.value, digest, k);
      }
      hide SectionApplied, Changed;
    }
  }

  /** Through any requests, wherever an apply raises, no section with `editable: false` ever changes. */
  lemma {:induction false} ReadOnlySectionsStay(w: World, rs: seq<Request>, digest: string -> string)
    ensures ReadOnlyKept(w.bots, HandledAll(w, rs, digest).bots)
    decreases |rs|
  {
    hide Handled;
    if rs == [] {
    } else {
      HandledKeepsReadOnly(w, rs[0], digest);
      ReadOnlySectionsStay(Handled(w, rs[0], digest), rs[1..], digest);
    }
  }

  /** Rows of sessions that no request is about stay as they are. */
  lemma {:induction false} OtherSessionsStay(w: World, rs: seq<Request>, digest: string -> string, k: nat)
    requires k < |w.rows| && forall r | r in rs :: r.session != w.rows[k].session
    ensures var v := HandledAll(w, rs, digest); k < |v.rows| && v.rows[k] == w.rows[k]
    decreases |rs|
  {
    if rs == [] {
    } else {
      assert rs[0] in rs && forall r | r in rs[1..] :: r in rs;
      HandledStays(w, rs[0], digest, k);
      OtherSessionsStay(Handled(w, rs[0], digest), rs[1..], digest, k);
    }
  }

  lemma HandledStays(w: World, r: Request, digest: string -> string, k: nat)
    requires k < |w.rows| && r.session != w.rows[k].session
    ensures var v := Handled(w, r, digest); k < |v.rows| && v.rows[k] == w.rows[k]
  {
    hide Changed;
  }

  ghost predicate Injective(digest: string -> string) {
    forall a, b :: digest(a) == digest(b) ==> a == b
  }

  /** A proposal made against one body is applied only to that body, surrounding white space aside. */
  lemma AppliesToWhatWasRead(sections: seq<Json>, blob: Blob, digest: string -> string, read: string)
    requires Injective(digest) && Get(blob, PREVIOUS_SHA) == Str(digest(Strip(read))) && digest(Strip(read)) != ""
    requires SectionApplied(sections, blob, digest).Done?
    ensures var k := Locate(sections, Get(blob, SECTION_ID).s);
            Strip(LiveBody(sections[k].fields).value) == Strip(read)
  {
  }

  lemma BodyStands(sec: Blob, body: Json)
    requires Get(sec, BODY) == body && Worded(body)
    ensures LiveBody(sec) == Some(body.s)
  {
    assert Strip("") == "";
  }

  /** Of two proposals made against the same body of a section, once the first is applied the second is
      refused as stale exactly when the first changed more than surrounding white space. */
  lemma SecondOfTwoIsStaleIff(sections: seq<Json>, first: Blob, second: Blob, digest: string -> string)
    requires Injective(digest)
    requires SectionApplied(sections, first, digest).Done? && SectionApplied(sections, second, digest).Done?
    requires Get(first, SECTION_ID) == Get(second, SECTION_ID)
    requires Get(second, PREVIOUS_SHA).Str? && Get(second, PREVIOUS_SHA).s != ""
    ensures var k := Locate(sections, Get(first, SECTION_ID).s);
            SectionApplied(SectionApplied(sections, first, digest).value, second, digest) == Refused(Stale) <==>
            Strip(Get(first, NEW_BODY).s) != Strip(LiveBody(sections[k].fields).value)
  {
    SectionApplyTouchesOneBody(sections, first, digest);
    SectionLaneNeeds(sections, first, digest);
    SectionLaneNeeds(sections, second, digest);
    var id, after := Get(first, SECTION_ID).s, SectionApplied(sections, first, digest).value;
    var k := Locate(sections, id);
    BodyStands(after[k].fields, Get(first, NEW_BODY));
    assert FirstWith(sections, id, k) && FirstWith(after, id, k);
    SectionLaneIff(sections, second, digest, k);
    SectionLaneIff(after, second, digest, k);
    assert ReadOnly(after[k]) <==> ReadOnly(sections[k]);
    hide SectionApplied, LiveBody, Worded, FirstWith, Locate, Strip;
  }

  /** The claimed hash of a proposal stops it once its own change is in the section. */
  predicate StopsItself(sections: seq<Json>, blob: Blob)
    requires Worded(Get(blob, SECTION_ID)) && Worded(Get(blob, NEW_BODY))
    requires Locate(sections, Get(blob, SECTION_ID).s) < |sections|
  {
    var live := LiveBody(sections[Locate(sections, Get(blob, SECTION_ID).s)].fields);
    && Get(blob, PREVIOUS_SHA).Str? && Get(blob, PREVIOUS_SHA).s != ""
    && live.Some? && Strip(Get(blob, NEW_BODY).s) != Strip(live.value)
  }

  /** A section apply on top of itself. */
  lemma SectionAgain(sections: seq<Json>, blob: Blob, digest: string -> string)
    requires Injective(digest) && SectionApplied(sections, blob, digest).Done?
    ensures var again := SectionApplied(SectionApplied(sections, blob, digest).value, blob, digest);
            if StopsItself(sections, blob) then again == Refused(Stale) else again.Done?
  {
    SectionApplyTouchesOneBody(sections, blob, digest);
    var after := SectionApplied(sections, blob, digest).value;
    SameLocate(sections, after, Get(blob, SECTION_ID).s);
    BodyStands(after[Locate(sections, Get(blob, SECTION_ID).s)].fields, Get(blob, NEW_BODY));
  }

  /** What becomes of a proposal whose apply raised after the bot was changed and before the statuses moved.
      It is still pending. A retry, while the bot stays as it was left, is refused for ever in the text
      lane, refused as stale in the section lane exactly when the proposal claims a hash and changed more
      than surrounding white space, and otherwise goes through. */
  lemma RetryAfterRaise(w: World, session: nat, id: nat, digest: string -> string, done: nat, v: World)
    requires Injective(digest) && Ready(w, session, id, digest).Done?
    requires BotLanded(w.rows[id], done) && done < 3
    requires var u := ApplyProposal(w, session, id, digest, done).0;
             id < |v.rows| && v.rows[id] == u.rows[id] && v.botOf == u.botOf
             && w.botOf[session] in v.bots && v.bots[w.botOf[session]] == u.bots[w.botOf[session]]
    ensures var m := w.rows[id];
            && v.rows[id].status == Pending
            && (TextLane(m) ==> Ready(v, session, id, digest) == Refused(NoChange))
            && (OverrideLane(m) ==> Ready(v, session, id, digest).Done?)
            && (m.section.Some? ==>
                if StopsItself(w.bots[w.botOf[session]].sections, m.section.value)
                then Ready(v, session, id, digest) == Refused(Stale) else Ready(v, session, id, digest).Done?)
  {
    var m, bot := w.rows[id], w.bots[w.botOf[session]];
    if m.section.Some? {
      SectionAgain(bot.sections, m.section.value, digest);
    }
    hide SectionApplied, StopsItself;
  }

  /** While the bot was not reached, the retry is the first apply again. */
  lemma RetryBeforeBot(w: World, session: nat, id: nat, digest: string -> string, done: nat)
    requires Ready(w, session, id, digest).Done? && !BotLanded(w.rows[id], done)
    ensures Ready(ApplyProposal(w, session, id, digest, done).0, session, id, digest) == Ready(w, session, id, digest)
  {
    hide Changed;
  }

  lemma {:induction false} SameLocate(a: seq<Json>, b: seq<Json>, id: string)
    requires |a| == |b| && forall j | 0 <= j < |a| :: HasId(a[j], id) <==> HasId(b[j], id)
    ensures Locate(a, id) == Locate(b, id)
  {
  }

  // ---------------------------------------------------------------- the render-time snapshots

  /** First live section with the id. */
  function Snapshotted(blob: Blob, live: Option<seq<Json>>): Blob {
    var id := Get(blob, SECTION_ID);
    if !Worded(id) || live.None? then blob
    else
      var k := Locate(live.value, id.s);
      if k == |live.value| then blob
      else
        var sec := live.value[k].fields;
        var b := if !Get(blob, SECTION_HEADING).Str? && Get(sec, HEADING).Str?
                 then blob[SECTION_HEADING := Get(sec, HEADING)] else blob;
        if !Get(b, SECTION_EDITABLE).Bool?
        then b[SECTION_EDITABLE := Bool(if EDITABLE in sec then Truthy(sec[EDITABLE]) else true)] else b
  }

  method EnsureSectionSnapshots(blob: Blob, live: Option<seq<Json>>) returns (r: Blob)
    ensures r == Snapshotted(blob, live)
  {
    r := blob;
    var id := Get(blob, SECTION_ID);
    if !Worded(id) {
      return;
    }
    var needsHeading, needsEditable := !Get(blob, SECTION_HEADING).Str?, !Get(blob, SECTION_EDITABLE).Bool?;
    if !needsHeading && !needsEditable {
      return;
    }
    if live.None? {
      return;
    }
    for k := 0 to |live.value|
      invariant r == blob && forall j | 0 <= j < k :: !HasId(live.value[j], id.s)
    {
      if HasId(live.value[k], id.s) {
        var sec := live.value[k].fields;
        if needsHeading && Get(sec, HEADING).Str? {
          r := r[SECTION_HEADING := Get(sec, HEADING)];
        }
        if needsEditable {
          r := r[SECTION_EDITABLE := Bool(if EDITABLE in sec then Truthy(sec[EDITABLE]) else true)];
        }
        return;
      }
    }
  }

  /** Only missing fields are filled, a second pass fills nothing, and the apply that follows later is
      the same with or without it. */
  lemma SnapshotsOnlyFill(blob: Blob, live: Option<seq<Json>>)
    ensures var r := Snapshotted(blob, live);
            && (forall f | f in blob && f != SECTION_HEADING && f != SECTION_EDITABLE :: f in r && r[f] == blob[f])
            && r.Keys <= blob.Keys + {SECTION_HEADING, SECTION_EDITABLE}
            && (Get(blob, SECTION_HEADING).Str? ==> Get(r, SECTION_HEADING) == Get(blob, SECTION_HEADING))
            && (Get(blob, SECTION_EDITABLE).Bool? ==> Get(r, SECTION_EDITABLE) == Get(blob, SECTION_EDITABLE))
            && Snapshotted(r, live) == r
  {
  }

  /** What is filled in is what the first live section with the id shows: its heading if that is text, and
      whether it is editable, which it is unless it says otherwise. Without such a section nothing is. */
  lemma SnapshotsShowLive(blob: Blob, live: seq<Json>, k: nat)
    requires Worded(Get(blob, SECTION_ID)) && k <= |live|
    requires if k < |live| then FirstWith(live, Get(blob, SECTION_ID).s, k)
             else forall j | 0 <= j < k :: !HasId(live[j], Get(blob, SECTION_ID).s)
    ensures var r := Snapshotted(blob, Some(live));
            && (k == |live| ==> r == blob)
            && (k < |live| && !Get(blob, SECTION_HEADING).Str? && Get(live[k].fields, HEADING).Str? ==>
                  Get(r, SECTION_HEADING) == Get(live[k].fields, HEADING))
            && (k < |live| && !Get(blob, SECTION_EDITABLE).Bool? ==>
                  Get(r, SECTION_EDITABLE) == Bool(EDITABLE in live[k].fields ==> Truthy(live[k].fields[EDITABLE])))
  {
    assert Locate(live, Get(blob, SECTION_ID).s) == k;
  }

  lemma SnapshotsKeep(blob: Blob, live: Option<seq<Json>>)
    ensures forall f | f != SECTION_HEADING && f != SECTION_EDITABLE :: Get(Snapshotted(blob, live), f) == Get(blob, f)
  {
  }

  lemma SnapshotsDoNotSteerApply(blob: Blob, live: Option<seq<Json>>, sections: seq<Json>, digest: string -> string)
    ensures SectionApplied(sections, Snapshotted(blob, live), digest) == SectionApplied(sections, blob, digest)
  {
    SnapshotsKeep(blob, live);
    hide Snapshotted, Locate, LiveBody, Worded;
  }
}
