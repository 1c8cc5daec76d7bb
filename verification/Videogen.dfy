/** Video generation: the request table of app/videogen/repository.py, one atomic statement per
    helper, and the workers of app/videogen/worker.py that finish rows under a lapsing lease. */
module Videogen {
  import opened Options

  datatype Status = Pending | Complete | Failed

  datatype Row = Row(userId: string, prompt: string, status: Status, comfyId: Option<string>,
                     videoUrl: Option<string>, token: Option<string>, failureReason: Option<string>,
                     createdAt: int, claimedAt: Option<int>)

  type Table = map<string, Row>

  // ---------------------------------------------------------------- the statements

  /** The insert fails on a video id that is already there. */
  function Inserted(rows: Table, video: string, userId: string, prompt: string, token: Option<string>, now: int): Table {
    if video in rows then rows
    else rows[video := Row(userId, prompt, Pending, None, None, token, None, now, None)]
  }

  function Attached(rows: Table, video: string, comfyId: string): Table {
    if video in rows then rows[video := rows[video].(comfyId := Some(comfyId))] else rows
  }

  predicate Claimable(rows: Table, video: string, now: int, lease: nat) {
    && video in rows
    && rows[video].status == Pending
    && (rows[video].claimedAt.None? || rows[video].claimedAt.value < now - lease)
  }

  function Claimed(rows: Table, video: string, now: int): Table
    requires video in rows
  {
    rows[video := rows[video].(claimedAt := Some(now))]
  }

  predicate IsPending(rows: Table, video: string) {
    video in rows && rows[video].status == Pending
  }

  function Completed(rows: Table, video: string, url: string): Table {
    if IsPending(rows, video) then rows[video := rows[video].(status := Complete, videoUrl := Some(url), token := None)]
    else rows
  }

  function FailedWith(row: Row, reason: string): Row {
    row.(status := Failed, failureReason := Some(reason), token := None)
  }

  function MarkedFailed(rows: Table, video: string, reason: string): Table {
    if IsPending(rows, video) then
      rows[video := FailedWith(rows[video], if |reason| > 500 then reason[..500] else reason)]
    else rows
  }

  function Swept(rows: Table, olderThan: nat, now: int): Table {
    map v | v in rows ::
      if rows[v].status == Pending && rows[v].createdAt < now - olderThan
      then FailedWith(rows[v], "timed out waiting for generation") else rows[v]
  }

  /** No other row is added, lost or changed. */
  ghost predicate OnlyRow(before: Table, after: Table, video: string) {
    && after.Keys == before.Keys
    && forall v | v in before && v != video :: after[v] == before[v]
  }

  /** A pending row older than the limit. */
  predicate Stale(rows: Table, v: string, olderThan: nat, now: int) {
    IsPending(rows, v) && rows[v].createdAt < now - olderThan
  }

  /** A sweep leaves no stale row. It changes exactly those that were, and of them no more than that they
      are failed, say why and have no token. */
  ghost predicate SweptExactly(before: Table, after: Table, olderThan: nat, now: int) {
    && after.Keys == before.Keys
    && (forall v | v in before :: after[v] != before[v] <==> Stale(before, v, olderThan, now))
    && (forall v | v in before && Stale(before, v, olderThan, now) ::
          after[v] == before[v].(status := Failed, failureReason := Some("timed out waiting for generation"), token := None))
    && forall v :: !Stale(after, v, olderThan, now)
  }

  class VideogenTable {
    var rows: Table

    constructor ()
      ensures rows == map[]
    {
      rows := map[];
    }

    method CreatePending(video: string, userId: string, prompt: string, token: Option<string>, now: int) returns (ok: bool)
      modifies this
      ensures ok == (video !in old(rows)) && rows == Inserted(old(rows), video, userId, prompt, token, now)
      ensures rows.Keys == old(rows).Keys + {video} && forall v | v in old(rows) :: rows[v] == old(rows)[v]
      ensures ok ==> rows[video] == Row(userId, prompt, Pending, None, None, token, None, now, None)
    {
      ok := video !in rows;
      if ok {
        rows := rows[video := Row(userId, prompt, Pending, None, None, token, None, now, None)];
      }
    }

    method AttachComfyId(video: string, comfyId: string)
      modifies this
      ensures rows == Attached(old(rows), video, comfyId)
      ensures OnlyRow(old(rows), rows, video)
      ensures video in rows ==> rows[video] == old(rows)[video].(comfyId := Some(comfyId))
    {
      if video in rows {
        rows := rows[video := rows[video].(comfyId := Some(comfyId))];
      }
    }

    method ClaimForFinish(video: string, now: int, lease: nat) returns (won: bool)
      modifies this
      ensures won == Claimable(old(rows), video, now, lease)
      ensures rows == if won then Claimed(old(rows), video, now) else old(rows)
      ensures won <==> IsPending(old(rows), video) && forall t | old(rows)[video].claimedAt == Some(t) :: t + lease < now
      ensures OnlyRow(old(rows), rows, video)
      ensures won ==> rows[video] == old(rows)[video].(claimedAt := Some(now))
    {
      won := video in rows && rows[video].status == Pending &&
             (rows[video].claimedAt.None? || rows[video].claimedAt.value < now - lease);
      if won {
        rows := rows[video := rows[video].(claimedAt := Some(now))];
      }
    }

    method MarkComplete(video: string, url: string)
      modifies this
      ensures rows == Completed(old(rows), video, url)
      ensures OnlyRow(old(rows), rows, video)
      ensures video in rows ==>
                rows[video] == if old(rows)[video].status != Pending then old(rows)[video]
                               else old(rows)[video].(status := Complete, videoUrl := Some(url), token := None)
    {
      if video in rows && rows[video].status == Pending {
        rows := rows[video := rows[video].(status := Complete, videoUrl := Some(url), token := None)];
      }
    }

    method MarkFailed(video: string, reason: string)
      modifies this
      ensures rows == MarkedFailed(old(rows), video, reason)
      ensures OnlyRow(old(rows), rows, video)
      ensures video in rows && old(rows)[video].status != Pending ==> rows[video] == old(rows)[video]
      ensures IsPending(old(rows), video) ==>
                exists stored: string | stored <= reason ::
                  && |stored| == (if |reason| <= 500 then |reason| else 500)
                  && rows[video] == old(rows)[video].(status := Failed, failureReason := Some(stored), token := None)
    {
      if video in rows && rows[video].status == Pending {
        var stored := if |reason| > 500 then reason[..500] else reason;
        rows := rows[video := rows[video].(status := Failed, failureReason := Some(stored), token := None)];
      }
    }

    method FailStale(olderThan: nat, now: int) returns (swept: nat)
      modifies this
      ensures rows == Swept(old(rows), olderThan, now)
      ensures SweptExactly(old(rows), rows, olderThan, now)
      ensures swept == |set v | v in old(rows) && Stale(old(rows), v, olderThan, now)|
      ensures swept == |set v | v in old(rows) && old(rows)[v].status == Pending && rows[v].status == Failed|
    {
      var stale := set v | v in rows && Stale(rows, v, olderThan, now);
      swept := |stale|;
      ghost var before := rows;
      rows := Swept(rows, olderThan, now);
      assert stale == set v | v in before && before[v].status == Pending && rows[v].status == Failed;
    }
  }

  // ---------------------------------------------------------------- the workers

  /** How far a finish has come; Broken is the exception handler before its mark_failed. */
  datatype Stage = Start | Fetched | ThumbStored | VideoStored | Drafted | Broken(reason: string)

  datatype Worker =
    | Idle
    | Looking(video: string, row: Row)
    | Finishing(video: string, row: Row, claimedAt: int, stage: Stage)

  /** DraftAttempt is a post sent, Draft its answer: a post that raises may have landed all the same. */
  datatype Effect =
    | Claim(video: string, at: int)
    | Thumb(video: string)
    | Video(video: string)
    | DraftAttempt(video: string)
    | Draft(video: string)

  datatype World = World(rows: Table, now: int, workers: seq<Worker>, log: seq<Effect>)

  datatype Event =
    | Tick(seconds: nat)
    | Create(video: string, userId: string, prompt: string, token: Option<string>)
    | Attach(video: string, comfyId: string)
    | SubmitFailed(video: string, reason: string)
    | Sweep(olderThan: nat)
    | Pick(w: nat, video: string)
    | PollPending(w: nat)
    | PollFailed(w: nat)
    | PollDone(w: nat)
    | Advance(w: nat)
    | Raise(w: nat, reason: string)
    | Close(w: nat)
    | Crash(w: nat)

  function PublicUrl(userId: string, video: string): string {
    userId + "/" + video + ".mp4"
  }

  predicate NoToken(row: Row) {
    row.token.None? || row.token.value == ""
  }

  predicate Enabled(s: World, e: Event) {
    match e
    case Pick(w, v) => w < |s.workers| && s.workers[w].Idle? && IsPending(s.rows, v)
    case PollPending(w) => w < |s.workers| && s.workers[w].Looking?
    case PollFailed(w) => w < |s.workers| && s.workers[w].Looking? && s.workers[w].row.comfyId.Some?
    case PollDone(w) => w < |s.workers| && s.workers[w].Looking? && s.workers[w].row.comfyId.Some?
    case Advance(w) => w < |s.workers| && s.workers[w].Finishing? && !s.workers[w].stage.Broken?
    case Raise(w, _) => w < |s.workers| && s.workers[w].Finishing? && !s.workers[w].stage.Broken?
    case Close(w) => w < |s.workers| && s.workers[w].Finishing? && s.workers[w].stage.Broken?
    case Crash(w) => w < |s.workers|
    case _ => true
  }

  /** One step of `_finish`: fetch, thumbnail, video, draft post, close. */
  function Advanced(s: World, w: nat): World
    requires Enabled(s, Advance(w))
  {
    var job := s.workers[w];
    var v := job.video;
    match job.stage
    case Start => s.(workers := s.workers[w := job.(stage := Fetched)])
    case Fetched => s.(workers := s.workers[w := job.(stage := ThumbStored)], log := s.log + [Thumb(v)])
    case ThumbStored => s.(workers := s.workers[w := job.(stage := VideoStored)], log := s.log + [Video(v)])
    case VideoStored =>
      if NoToken(job.row) then s.(workers := s.workers[w := Idle])
      else s.(workers := s.workers[w := job.(stage := Drafted)], log := s.log + [DraftAttempt(v), Draft(v)])
    case Drafted =>
      s.(workers := s.workers[w := Idle], rows := Completed(s.rows, v, PublicUrl(job.row.userId, v)))
    case Broken(_) => s
  }

  function Next(s: World, lease: nat, e: Event): World
    requires Enabled(s, e)
  {
    match e
    case Tick(d) => s.(now := s.now + d)
    case Create(v, user, prompt, token) => s.(rows := Inserted(s.rows, v, user, prompt, token, s.now))
    case Attach(v, comfyId) => s.(rows := Attached(s.rows, v, comfyId))
    case SubmitFailed(v, reason) => s.(rows := MarkedFailed(s.rows, v, reason))
    case Sweep(olderThan) => s.(rows := Swept(s.rows, olderThan, s.now))
    case Pick(w, v) => s.(workers := s.workers[w := Looking(v, s.rows[v])])
    case PollPending(w) => s.(workers := s.workers[w := Idle])
    case PollFailed(w) =>
      s.(workers := s.workers[w := Idle], rows := MarkedFailed(s.rows, s.workers[w].video, "generation failed"))
    case PollDone(w) =>
      var v := s.workers[w].video;
      if Claimable(s.rows, v, s.now, lease) then
        s.(workers := s.workers[w := Finishing(v, s.workers[w].row, s.now, Start)],
           rows := Claimed(s.rows, v, s.now), log := s.log + [Claim(v, s.now)])
      else s.(workers := s.workers[w := Idle])
    case Advance(w) => Advanced(s, w)
    case Raise(w, reason) =>
      var job := s.workers[w];
      s.(workers := s.workers[w := job.(stage := Broken(reason))],
         log := if job.stage == VideoStored && !NoToken(job.row) then s.log + [DraftAttempt(job.video)] else s.log)
    case Close(w) =>
      s.(workers := s.workers[w := Idle], rows := MarkedFailed(s.rows, s.workers[w].video, s.workers[w].stage.reason))
    case Crash(w) => s.(workers := s.workers[w := Idle])
  }

  predicate IsRun(s: World, lease: nat, run: seq<Event>)
    decreases |run|
  {
    run == [] || (Enabled(s, run[0]) && IsRun(Next(s, lease, run[0]), lease, run[1..]))
  }

  function After(s: World, lease: nat, run: seq<Event>): World
    requires IsRun(s, lease, run)
    decreases |run|
  {
    if run == [] then s else After(Next(s, lease, run[0]), lease, run[1..])
  }

  predicate Fresh(s: World) {
    s.rows == map[] && s.log == [] && forall i | 0 <= i < |s.workers| :: s.workers[i].Idle?
  }

  // ---------------------------------------------------------------- terminal rows

  predicate Terminal(rows: Table, video: string) {
    video in rows && rows[video].status != Pending
  }

  predicate TokensCleared(rows: Table) {
    forall v | v in rows && rows[v].status != Pending :: rows[v].token.None?
  }

  predicate SameOutcome(a: Row, b: Row) {
    a.status == b.status && a.videoUrl == b.videoUrl && a.failureReason == b.failureReason && b.token.None?
  }

  lemma StepKeepsTerminal(s: World, lease: nat, e: Event)
    requires Enabled(s, e) && TokensCleared(s.rows)
    ensures TokensCleared(Next(s, lease, e).rows)
    ensures forall v | Terminal(s.rows, v) :: v in Next(s, lease, e).rows && SameOutcome(s.rows[v], Next(s, lease, e).rows[v])
  {
  }

  /** A row that reached `complete` or `failed` has no token, and whatever late completes, failures
      and sweeps arrive, its status, URL and failure reason stay. */
  lemma {:induction false} TerminalIsForever(s: World, lease: nat, run: seq<Event>)
    requires IsRun(s, lease, run) && TokensCleared(s.rows)
    ensures TokensCleared(After(s, lease, run).rows)
    ensures forall v | Terminal(s.rows, v) ::
              v in After(s, lease, run).rows && SameOutcome(s.rows[v], After(s, lease, run).rows[v])
    decreases |run|
  {
    if run == [] {
    } else {
      StepKeepsTerminal(s, lease, run[0]);
      TerminalIsForever(Next(s, lease, run[0]), lease, run[1..]);
    }
  }

  // ---------------------------------------------------------------- what closes a row

  /** In any state, a sweep fails exactly the stale rows. */
  lemma SweepIsExact(s: World, lease: nat, olderThan: nat)
    ensures var s' := Next(s, lease, Sweep(olderThan));
            SweptExactly(s.rows, s'.rows, olderThan, s.now) && s'.workers == s.workers && s'.log == s.log && s'.now == s.now
  {
  }

  ghost predicate AllSince(rows: Table, t: int) {
    forall v | IsPending(rows, v) :: rows[v].createdAt >= t
  }

  lemma StepSince(s: World, lease: nat, e: Event, t: int)
    requires Enabled(s, e) && AllSince(s.rows, t) && t <= s.now
    ensures AllSince(Next(s, lease, e).rows, t) && t <= Next(s, lease, e).now
  {
  }

  /** And for good: after a sweep, whatever happens, no row that was then older than the limit is ever
      pending. */
  lemma {:induction false} SweptForGood(s: World, lease: nat, run: seq<Event>, t: int)
    requires IsRun(s, lease, run) && AllSince(s.rows, t) && t <= s.now
    ensures AllSince(After(s, lease, run).rows, t)
    decreases |run|
  {
    hide Next, AllSince;
    if run == [] {
    } else {
      StepSince(s, lease, run[0], t);
      SweptForGood(Next(s, lease, run[0]), lease, run[1..], t);
    }
  }

  lemma NothingStaleAfterSweep(s: World, lease: nat, olderThan: nat, run: seq<Event>)
    requires IsRun(Next(s, lease, Sweep(olderThan)), lease, run)
    ensures AllSince(After(Next(s, lease, Sweep(olderThan)), lease, run).rows, s.now - olderThan)
  {
    var s' := Next(s, lease, Sweep(olderThan));
    SweepIsExact(s, lease, olderThan);
    forall v | IsPending(s'.rows, v) ensures s'.rows[v].createdAt >= s.now - olderThan {
      assert !Stale(s'.rows, v, olderThan, s.now);
    }
    SweptForGood(s', lease, run, s.now - olderThan);
  }

  /** What a step does to a pending row: who asked for what and when stays. It becomes complete exactly when
      a worker whose draft is posted advances, and then shows that worker's video. It fails exactly when its
      submission or generation failed, the handler of its broken finish closes it, or a sweep finds it
      stale. Otherwise it stays pending with its token. */
  lemma PendingUntilClosed(s: World, lease: nat, e: Event, v: string)
    requires Enabled(s, e) && IsPending(s.rows, v)
    ensures var before, rows := s.rows[v], Next(s, lease, e).rows;
            && v in rows
            && rows[v].userId == before.userId && rows[v].prompt == before.prompt && rows[v].createdAt == before.createdAt
            && (rows[v].status == Complete <==>
                e.Advance? && s.workers[e.w].video == v && s.workers[e.w].stage == Drafted)
            && (rows[v].status == Complete ==> rows[v].videoUrl == Some(s.workers[e.w].row.userId + "/" + v + ".mp4"))
            && (rows[v].status == Failed <==>
                || (e.SubmitFailed? && e.video == v)
                || (e.PollFailed? && s.workers[e.w].video == v)
                || (e.Close? && s.workers[e.w].video == v)
                || (e.Sweep? && Stale(s.rows, v, e.olderThan, s.now)))
            && (rows[v].status == Failed ==>
                  rows[v].failureReason == Some(
                    if e.SubmitFailed? then Shortened(e.reason)
                    else if e.PollFailed? then "generation failed"
                    else if e.Close? then Shortened(s.workers[e.w].stage.reason)
                    else "timed out waiting for generation"))
            && (rows[v].status == Pending ==> rows[v].token == before.token)
            && (rows[v].comfyId == if e.Attach? && e.video == v then Some(e.comfyId) else before.comfyId)
  {
    hide Advanced;
    AdvancedRows(s, e);
  }

  /** A row appears exactly by a request for it, pending and as asked for; none goes away. */
  lemma RowsAppear(s: World, lease: nat, e: Event, v: string)
    requires Enabled(s, e)
    ensures var rows := Next(s, lease, e).rows;
            && (v in rows <==> v in s.rows || (e.Create? && e.video == v))
            && (v in rows && v !in s.rows ==>
                  rows[v] == Row(e.userId, e.prompt, Pending, None, None, e.token, None, s.now, None))
  {
    hide Advanced;
    AdvancedRows(s, e);
  }

  /** The event is a worker's own. */
  predicate ByWorker(e: Event, w: nat) {
    match e
    case Pick(i, _) => i == w
    case PollPending(i) => i == w
    case PollFailed(i) => i == w
    case PollDone(i) => i == w
    case Advance(i) => i == w
    case Raise(i, _) => i == w
    case Close(i) => i == w
    case Crash(i) => i == w
    case _ => false
  }

  /** When a worker is free again: when its poll showed the job unfinished or failed, when another had the
      claim, when it closed its row, well or broken, when it had no token to post with, or when it died. Only
      its own steps move it. */
  lemma WorkerIsFree(s: World, lease: nat, e: Event, w: nat)
    requires Enabled(s, e) && w < |s.workers|
    ensures var before, after := s.workers[w], Next(s, lease, e).workers;
            && |after| == |s.workers|
            && (!ByWorker(e, w) ==> after[w] == before)
            && (ByWorker(e, w) ==>
                  (after[w].Idle? <==>
                     || e.PollPending? || e.PollFailed? || e.Close? || e.Crash?
                     || (e.PollDone? && !Claimable(s.rows, before.video, s.now, lease))
                     || (e.Advance? && (before.stage == Drafted || (before.stage == VideoStored && (before.row.token == None || before.row.token == Some("")))))))
            && (e.Raise? && e.w == w ==> after[w] == before.(stage := Broken(e.reason)))
            && (e.Pick? && e.w == w ==> after[w] == Looking(e.video, s.rows[e.video]))
  {
  }

  function Shortened(reason: string): string {
    if |reason| > 500 then reason[..500] else reason
  }

  lemma AdvancedRows(s: World, e: Event)
    requires Enabled(s, e)
    ensures e.Advance? ==>
              Advanced(s, e.w).rows ==
              if s.workers[e.w].stage == Drafted
              then Completed(s.rows, s.workers[e.w].video, PublicUrl(s.workers[e.w].row.userId, s.workers[e.w].video))
              else s.rows
  {
  }

  // ---------------------------------------------------------------- complete means delivered

  /** Thumbnail, video and draft were stored, in this order. */
  ghost predicate Delivered(log: seq<Effect>, v: string) {
    exists i, j, k :: 0 <= i < j < k < |log| && log[i] == Thumb(v) && log[j] == Video(v) && log[k] == Draft(v)
  }

  ghost predicate Stored(log: seq<Effect>, v: string) {
    exists i, j :: 0 <= i < j < |log| && log[i] == Thumb(v) && log[j] == Video(v)
  }

  ghost predicate StageInLog(log: seq<Effect>, job: Worker) {
    job.Finishing? ==>
      && (job.stage == ThumbStored ==> Thumb(job.video) in log)
      && (job.stage == VideoStored ==> Stored(log, job.video))
      && (job.stage == Drafted ==> Delivered(log, job.video))
  }

  ghost predicate EffectsFirst(s: World) {
    && (forall i | 0 <= i < |s.workers| :: StageInLog(s.log, s.workers[i]))
    && (forall v | v in s.rows && s.rows[v].status == Complete :: Delivered(s.log, v))
  }

  lemma LogGrows(log: seq<Effect>, more: seq<Effect>)
    ensures forall v :: Stored(log, v) ==> Stored(log + more, v)
    ensures forall v :: Delivered(log, v) ==> Delivered(log + more, v)
    ensures forall job :: StageInLog(log, job) ==> StageInLog(log + more, job)
  {
    forall v | Stored(log, v) ensures Stored(log + more, v) {
      var i, j :| 0 <= i < j < |log| && log[i] == Thumb(v) && log[j] == Video(v);
      assert (log + more)[i] == Thumb(v) && (log + more)[j] == Video(v);
    }
    forall v | Delivered(log, v) ensures Delivered(log + more, v) {
      var i, j, k :| 0 <= i < j < k < |log| && log[i] == Thumb(v) && log[j] == Video(v) && log[k] == Draft(v);
      assert (log + more)[i] == Thumb(v) && (log + more)[j] == Video(v) && (log + more)[k] == Draft(v);
    }
  }

  /** The new stage of the worker that advances is backed by the log. */
  lemma AdvancedStage(s: World, w: nat)
    requires Enabled(s, Advance(w)) && StageInLog(s.log, s.workers[w])
    ensures StageInLog(Advanced(s, w).log, Advanced(s, w).workers[w])
  {
    var log, v := s.log, s.workers[w].video;
    match s.workers[w].stage
    case ThumbStored =>
      var i :| 0 <= i < |log| && log[i] == Thumb(v);
      assert (log + [Video(v)])[i] == Thumb(v) && (log + [Video(v)])[|log|] == Video(v);
    case VideoStored =>
      var log' := log + [DraftAttempt(v), Draft(v)];
      var i, j :| 0 <= i < j < |log| && log[i] == Thumb(v) && log[j] == Video(v);
      assert log'[i] == Thumb(v) && log'[j] == Video(v) && log'[|log| + 1] == Draft(v);
    case _ =>
  }

  /** What a step does to the effects: the log grows, a worker keeps its stage, advances or starts
      afresh, and only a worker past its draft completes a row. */
  lemma NextEffects(s: World, lease: nat, e: Event)
    requires Enabled(s, e)
    ensures var s' := Next(s, lease, e);
            && s.log <= s'.log && |s'.workers| == |s.workers|
            && (forall i | 0 <= i < |s.workers| && !(e.Advance? && i == e.w) ::
                  s'.workers[i] == s.workers[i] || !s'.workers[i].Finishing?
                  || s'.workers[i].stage == Start || s'.workers[i].stage.Broken?)
            && (forall v | v in s'.rows && s'.rows[v].status == Complete ::
                  || (v in s.rows && s.rows[v].status == Complete)
                  || (e.Advance? && s.workers[e.w].stage == Drafted && s.workers[e.w].video == v))
  {
  }

  lemma StageAfterAdvance(s: World, lease: nat, w: nat)
    requires EffectsFirst(s) && Enabled(s, Advance(w))
    ensures StageInLog(Next(s, lease, Advance(w)).log, Next(s, lease, Advance(w)).workers[w])
    ensures s.workers[w].stage == Drafted ==> Delivered(s.log, s.workers[w].video)
  {
    AdvancedStage(s, w);
    hide Advanced, Delivered, Stored;
  }

  lemma StepEffects(s: World, lease: nat, e: Event)
    requires EffectsFirst(s) && Enabled(s, e)
    ensures EffectsFirst(Next(s, lease, e))
  {
    hide Next, Delivered, Stored, Enabled;
    NextEffects(s, lease, e);
    var s' := Next(s, lease, e);
    if e.Advance? {
      StageAfterAdvance(s, lease, e.w);
    }
    var more := s'.log[|s.log|..];
    assert s'.log == s.log + more;
    LogGrows(s.log, more);
    forall i | 0 <= i < |s'.workers| ensures StageInLog(s'.log, s'.workers[i]) {
      assert StageInLog(s.log, s.workers[i]);
    }
  }

  /** In every run a complete row's thumbnail, video and draft came first, in that order. */
  lemma {:induction false} CompleteMeansDelivered(s: World, lease: nat, run: seq<Event>)
    requires IsRun(s, lease, run) && EffectsFirst(s)
    ensures EffectsFirst(After(s, lease, run))
    decreases |run|
  {
    if run == [] {
    } else {
      StepEffects(s, lease, run[0]);
      CompleteMeansDelivered(Next(s, lease, run[0]), lease, run[1..]);
    }
  }

  // ---------------------------------------------------------------- the lease

  function Claims(log: seq<Effect>, v: string): seq<int> {
    if log == [] then []
    else
      var rest, last := Claims(log[..|log| - 1], v), log[|log| - 1];
      if last.Claim? && last.video == v then rest + [last.at] else rest
  }

  lemma ClaimsAppend(log: seq<Effect>, e: Effect, v: string)
    ensures Claims(log + [e], v) == Claims(log, v) + (if e.Claim? && e.video == v then [e.at] else [])
  {
  }

  ghost predicate Spaced(times: seq<int>, lease: nat) {
    forall i | 0 < i < |times| :: times[i] - times[i - 1] > lease
  }

  ghost predicate AllSpaced(s: World, lease: nat) {
    forall v :: Spaced(Claims(s.log, v), lease)
  }

  /** `claimed_at` is the time of the row's last claim. */
  ghost predicate RowsKnowClaims(s: World) {
    && (forall v :: v !in s.rows ==> Claims(s.log, v) == [])
    && (forall v | v in s.rows :: match s.rows[v].claimedAt
          case None => Claims(s.log, v) == []
          case Some(t) => t <= s.now && Claims(s.log, v) != [] && Claims(s.log, v)[|Claims(s.log, v)| - 1] == t)
  }

  predicate WorkersBehind(s: World) {
    forall i | 0 <= i < |s.workers| && s.workers[i].Finishing? ::
      && s.workers[i].video in s.rows && s.rows[s.workers[i].video].claimedAt.Some?
      && s.workers[i].claimedAt <= s.rows[s.workers[i].video].claimedAt.value
  }

  predicate WorkersApart(s: World, lease: nat) {
    forall i, j | 0 <= i < |s.workers| && 0 <= j < |s.workers| && i != j && SameJob(s, i, j) ::
      s.workers[i].claimedAt - s.workers[j].claimedAt > lease || s.workers[j].claimedAt - s.workers[i].claimedAt > lease
  }

  ghost predicate LeaseKept(s: World, lease: nat) {
    AllSpaced(s, lease) && RowsKnowClaims(s) && WorkersBehind(s) && WorkersApart(s, lease)
  }

  predicate SameJob(s: World, i: nat, j: nat)
    requires i < |s.workers| && j < |s.workers|
  {
    s.workers[i].Finishing? && s.workers[j].Finishing? && s.workers[i].video == s.workers[j].video
  }

  lemma {:induction false} OtherEffects(log: seq<Effect>, more: seq<Effect>, v: string)
    requires forall e | e in more :: !e.Claim?
    ensures Claims(log + more, v) == Claims(log, v)
  {
    if more == [] {
      assert log + more == log;
    } else {
      var n := |more| - 1;
      assert log + more == (log + more[..n]) + [more[n]];
      assert more[n] in more;
      ClaimsAppend(log + more[..n], more[n], v);
      OtherEffects(log, more[..n], v);
    }
  }

  function Winner(s: World, lease: nat, e: Event): Option<string>
    requires Enabled(s, e)
  {
    if e.PollDone? && Claimable(s.rows, s.workers[e.w].video, s.now, lease) then Some(s.workers[e.w].video) else None
  }

  /** What a step does to claims: at most one video is won, by one worker, now. */
  ghost predicate ClaimStep(s: World, s': World, lease: nat, won: Option<string>, actor: nat) {
    && s.now <= s'.now && |s'.workers| == |s.workers|
    && (won.Some? ==> Claimable(s.rows, won.value, s.now, lease))
    && (forall v :: Claims(s'.log, v) == Claims(s.log, v) + (if won == Some(v) then [s.now] else []))
    && (forall v | v in s.rows ::
          v in s'.rows && s'.rows[v].claimedAt == if won == Some(v) then Some(s.now) else s.rows[v].claimedAt)
    && (forall v | v in s'.rows && v !in s.rows :: s'.rows[v].claimedAt.None?)
    && (forall i | 0 <= i < |s.workers| && s'.workers[i].Finishing? ::
          if won.Some? && i == actor
          then s'.workers[i].video == won.value && s'.workers[i].claimedAt == s.now
          else s.workers[i].Finishing? && s'.workers[i].video == s.workers[i].video
               && s'.workers[i].claimedAt == s.workers[i].claimedAt)
  }

  function Actor(e: Event): nat {
    match e
    case Pick(w, _) => w
    case PollPending(w) => w
    case PollFailed(w) => w
    case PollDone(w) => w
    case Advance(w) => w
    case Raise(w, _) => w
    case Close(w) => w
    case Crash(w) => w
    case _ => 0
  }

  lemma NewClaims(s: World, lease: nat, e: Event, v: string)
    requires Enabled(s, e)
    ensures Claims(Next(s, lease, e).log, v) == Claims(s.log, v) + (if Winner(s, lease, e) == Some(v) then [s.now] else [])
  {
    if Winner(s, lease, e).Some? {
      ClaimsAppend(s.log, Claim(s.workers[e.w].video, s.now), v);
    } else {
      var more := Next(s, lease, e).log[|s.log|..];
      assert Next(s, lease, e).log == s.log + more;
      OtherEffects(s.log, more, v);
    }
  }

  lemma NextClaimedAt(s: World, lease: nat, e: Event)
    requires Enabled(s, e)
    ensures var s', won := Next(s, lease, e), Winner(s, lease, e);
            && (forall v | v in s.rows ::
                  v in s'.rows && s'.rows[v].claimedAt == if won == Some(v) then Some(s.now) else s.rows[v].claimedAt)
            && (forall v | v in s'.rows && v !in s.rows :: s'.rows[v].claimedAt.None?)
  {
  }

  lemma NextFinishers(s: World, lease: nat, e: Event)
    requires Enabled(s, e)
    ensures var s', won := Next(s, lease, e), Winner(s, lease, e);
            && s.now <= s'.now && |s'.workers| == |s.workers|
            && (won.Some? ==> Working(s', Actor(e), won.value))
            && (forall i | 0 <= i < |s.workers| && s'.workers[i].Finishing? ::
                  if won.Some? && i == Actor(e)
                  then s'.workers[i].video == won.value && s'.workers[i].claimedAt == s.now
                  else s.workers[i].Finishing? && s'.workers[i].video == s.workers[i].video
                       && s'.workers[i].claimedAt == s.workers[i].claimedAt)
  {
  }

  lemma NextClaims(s: World, lease: nat, e: Event)
    requires Enabled(s, e)
    ensures ClaimStep(s, Next(s, lease, e), lease, Winner(s, lease, e), Actor(e))
    ensures Winner(s, lease, e).Some? ==> Working(Next(s, lease, e), Actor(e), Winner(s, lease, e).value)
  {
    forall v { NewClaims(s, lease, e, v); }
    NextClaimedAt(s, lease, e);
    NextFinishers(s, lease, e);
    hide Next;
  }

  lemma SpacedAppend(times: seq<int>, t: int, lease: nat)
    requires Spaced(times, lease) && (times != [] ==> t - times[|times| - 1] > lease)
    ensures Spaced(times + [t], lease)
  {
  }

  lemma StepSpaced(s: World, s': World, lease: nat, won: Option<string>, actor: nat)
    requires AllSpaced(s, lease) && RowsKnowClaims(s) && ClaimStep(s, s', lease, won, actor)
    ensures AllSpaced(s', lease) && RowsKnowClaims(s')
  {
    hide Claims, Spaced;
    forall v ensures Spaced(Claims(s'.log, v), lease) {
      assert Spaced(Claims(s.log, v), lease);
      if won == Some(v) {
        SpacedAppend(Claims(s.log, v), s.now, lease);
      } else {
        assert Claims(s'.log, v) == Claims(s.log, v) + [] == Claims(s.log, v);
      }
    }
    StepRowsKnow(s, s', lease, won, actor);
  }

  lemma StepRowsKnow(s: World, s': World, lease: nat, won: Option<string>, actor: nat)
    requires RowsKnowClaims(s) && ClaimStep(s, s', lease, won, actor)
    ensures RowsKnowClaims(s')
  {
    hide Claims;
  }

  lemma StepApart(s: World, s': World, lease: nat, won: Option<string>, actor: nat)
    requires RowsKnowClaims(s) && WorkersBehind(s) && WorkersApart(s, lease) && ClaimStep(s, s', lease, won, actor)
    ensures WorkersBehind(s') && WorkersApart(s', lease)
  {
    forall i, j | 0 <= i < |s'.workers| && 0 <= j < |s'.workers| && i != j && SameJob(s', i, j)
      ensures s'.workers[i].claimedAt - s'.workers[j].claimedAt > lease || s'.workers[j].claimedAt - s'.workers[i].claimedAt > lease
    {
      if !(won.Some? && (i == actor || j == actor)) {
        assert SameJob(s, i, j);
      }
    }
  }

  lemma StepLease(s: World, lease: nat, e: Event)
    requires LeaseKept(s, lease) && Enabled(s, e)
    ensures LeaseKept(Next(s, lease, e), lease)
  {
    hide Next;
    NextClaims(s, lease, e);
    StepSpaced(s, Next(s, lease, e), lease, Winner(s, lease, e), Actor(e));
    StepApart(s, Next(s, lease, e), lease, Winner(s, lease, e), Actor(e));
  }

  lemma {:induction false} LeaseIsKept(s: World, lease: nat, run: seq<Event>)
    requires IsRun(s, lease, run) && LeaseKept(s, lease)
    ensures LeaseKept(After(s, lease, run), lease)
    decreases |run|
  {
    if run == [] {
    } else {
      StepLease(s, lease, run[0]);
      LeaseIsKept(Next(s, lease, run[0]), lease, run[1..]);
    }
  }

  lemma {:induction false} SpacedSpan(times: seq<int>, lease: nat, i: nat, j: nat)
    requires Spaced(times, lease) && i < j < |times|
    ensures times[j] - times[i] > (j - i) * lease
    decreases j
  {
    if j <= i + 1 {
    } else {
      SpacedSpan(times, lease, i, j - 1);
      assert times[j] - times[j - 1] > lease;
      assert (j - i) * lease == (j - 1 - i) * lease + lease;
    }
  }

  /** In every run, from the first to the last of any k successful claims of a row more than k - 1
      leases pass. */
  lemma ClaimsAreLeasesApart(s: World, lease: nat, run: seq<Event>, v: string, i: nat, j: nat)
    requires Fresh(s) && IsRun(s, lease, run)
    requires i < j < |Claims(After(s, lease, run).log, v)|
    ensures Claims(After(s, lease, run).log, v)[j] - Claims(After(s, lease, run).log, v)[i] > (j - i) * lease
  {
    LeaseIsKept(s, lease, run);
    SpacedSpan(Claims(After(s, lease, run).log, v), lease, i, j);
  }

  /** Every finish under way was claimed no longer than a lease ago. */
  predicate Timely(s: World, lease: nat) {
    forall i | 0 <= i < |s.workers| && s.workers[i].Finishing? :: s.now - s.workers[i].claimedAt <= lease
  }

  /** While finishes take at most the lease, no two workers finish the same row. */
  lemma FinishIsExclusive(s: World, lease: nat, run: seq<Event>, i: nat, j: nat)
    requires Fresh(s) && IsRun(s, lease, run) && Timely(After(s, lease, run), lease)
    requires i < j < |After(s, lease, run).workers|
    ensures !SameJob(After(s, lease, run), i, j)
  {
    LeaseIsKept(s, lease, run);
  }

  // ---------------------------------------------------------------- one draft post

  /** Workers do not die inside a finish, and callers have a token. */
  predicate Clean(s: World, e: Event) {
    && (e.Crash? ==> e.w < |s.workers| ==> !s.workers[e.w].Finishing?)
    && (e.Create? ==> e.token.Some? && e.token.value != "")
  }

  predicate IsCleanRun(s: World, lease: nat, run: seq<Event>)
    requires IsRun(s, lease, run)
    decreases |run|
  {
    run == [] || (
      && Clean(s, run[0])
      && Timely(Next(s, lease, run[0]), lease)
      && IsCleanRun(Next(s, lease, run[0]), lease, run[1..]))
  }

  function Attempts(log: seq<Effect>, v: string): nat {
    if log == [] then 0 else Attempts(log[..|log| - 1], v) + (if log[|log| - 1] == DraftAttempt(v) then 1 else 0)
  }

  lemma AttemptsAppend(log: seq<Effect>, e: Effect, v: string)
    ensures Attempts(log + [e], v) == Attempts(log, v) + (if e == DraftAttempt(v) then 1 else 0)
  {
  }

  predicate BeforeDraft(stage: Stage) {
    stage == Start || stage == Fetched || stage == ThumbStored || stage == VideoStored
  }

  predicate Working(s: World, i: int, v: string) {
    0 <= i < |s.workers| && s.workers[i].Finishing? && s.workers[i].video == v
  }

  predicate TokensPresent(s: World) {
    && (forall v | v in s.rows && s.rows[v].status == Pending :: !NoToken(s.rows[v]))
    && (forall i | 0 <= i < |s.workers| && !s.workers[i].Idle? :: !NoToken(s.workers[i].row))
  }

  /** A claimed pending row is being finished by the worker that claimed it, and by no other. */
  ghost predicate ClaimerAtWork(s: World) {
    && (forall v | v in s.rows && s.rows[v].status == Pending && s.rows[v].claimedAt.Some? ::
          exists i :: Working(s, i, v) && s.workers[i].claimedAt == s.rows[v].claimedAt.value)
    && (forall i, j, v :: Working(s, i, v) && Working(s, j, v) ==> i == j)
    && (forall i, v :: Working(s, i, v) ==> v in s.rows && s.rows[v].claimedAt.Some?)
  }

  ghost predicate AttemptsBounded(s: World) {
    && (forall v :: Attempts(s.log, v) <= 1)
    && (forall v :: Attempts(s.log, v) == 1 ==> v in s.rows && s.rows[v].claimedAt.Some?)
    && (forall i, v :: Working(s, i, v) && BeforeDraft(s.workers[i].stage) ==> Attempts(s.log, v) == 0)
  }

  ghost predicate OneFinish(s: World) {
    TokensPresent(s) && ClaimerAtWork(s) && AttemptsBounded(s)
  }

  /** While the claimer is within its lease nobody else can claim: a claim that succeeds is the first. */
  lemma FirstClaim(s: World, lease: nat, v: string)
    requires OneFinish(s) && Timely(s, lease) && Claimable(s.rows, v, s.now, lease)
    ensures s.rows[v].claimedAt.None? && Attempts(s.log, v) == 0 && forall i :: !Working(s, i, v)
  {
  }

  /** A clean step lets go of a job only by closing its row. */
  ghost predicate JobStep(s: World, s': World) {
    && (forall v | v in s.rows && v in s'.rows && s'.rows[v].status == Pending :: s.rows[v].status == Pending)
    && (forall i, v :: Working(s, i, v) && !Working(s', i, v) ==> v in s'.rows && s'.rows[v].status != Pending)
  }

  lemma NextTokens(s: World, lease: nat, e: Event)
    requires TokensPresent(s) && Enabled(s, e) && Clean(s, e)
    ensures TokensPresent(Next(s, lease, e))
  {
  }

  lemma NextPending(s: World, lease: nat, e: Event, v: string)
    requires Enabled(s, e) && v in s.rows
    ensures v in Next(s, lease, e).rows
    ensures Next(s, lease, e).rows[v].status == Pending ==> s.rows[v].status == Pending
  {
  }

  lemma NextReleases(s: World, lease: nat, e: Event, i: int, v: string)
    requires TokensPresent(s) && Enabled(s, e) && Clean(s, e) && v in s.rows
    requires Working(s, i, v) && !Working(Next(s, lease, e), i, v)
    ensures v in Next(s, lease, e).rows && Next(s, lease, e).rows[v].status != Pending
  {
    assert i == Actor(e);
  }

  lemma NextJobs(s: World, lease: nat, e: Event)
    requires TokensPresent(s) && ClaimerAtWork(s) && Enabled(s, e) && Clean(s, e)
    ensures JobStep(s, Next(s, lease, e))
  {
    forall v | v in s.rows { NextPending(s, lease, e, v); }
    forall i, v | Working(s, i, v) && !Working(Next(s, lease, e), i, v)
      ensures v in Next(s, lease, e).rows && Next(s, lease, e).rows[v].status != Pending
    {
      NextReleases(s, lease, e, i, v);
    }
  }

  lemma StepAtWork(s: World, s': World, lease: nat, won: Option<string>, actor: nat)
    requires OneFinish(s) && Timely(s, lease)
    requires ClaimStep(s, s', lease, won, actor) && JobStep(s, s') && (won.Some? ==> Working(s', actor, won.value))
    ensures ClaimerAtWork(s')
  {
    if won.Some? {
      FirstClaim(s, lease, won.value);
    }
    forall v | v in s'.rows && s'.rows[v].status == Pending && s'.rows[v].claimedAt.Some?
      ensures exists i :: Working(s', i, v) && s'.workers[i].claimedAt == s'.rows[v].claimedAt.value
    {
      if won == Some(v) {
        assert Working(s', actor, v);
      } else {
        var i :| Working(s, i, v) && s.workers[i].claimedAt == s.rows[v].claimedAt.value;
        assert Working(s', i, v);
      }
    }
    forall i, j, v | Working(s', i, v) && Working(s', j, v) ensures i == j {
      if won != Some(v) {
        assert Working(s, i, v) && Working(s, j, v);
      } else {
        assert !Working(s, i, v) && !Working(s, j, v);
      }
    }
    forall i, v | Working(s', i, v) ensures v in s'.rows && s'.rows[v].claimedAt.Some? {
      if won != Some(v) {
        assert Working(s, i, v);
      }
    }
  }

  /** Only the worker that is about to post adds an attempt, and it is then past posting. */
  ghost predicate AttemptStep(s: World, s': World, actor: nat) {
    && (forall v :: Attempts(s'.log, v) == Attempts(s.log, v) ||
          (Attempts(s'.log, v) == Attempts(s.log, v) + 1 && Working(s, actor, v) && BeforeDraft(s.workers[actor].stage)
           && (Working(s', actor, v) ==> !BeforeDraft(s'.workers[actor].stage))))
    && (forall i, v :: Working(s, i, v) && Working(s', i, v) && BeforeDraft(s'.workers[i].stage) ==> BeforeDraft(s.workers[i].stage))
  }

  lemma NewAttempts(s: World, lease: nat, e: Event, v: string)
    requires Enabled(s, e)
    ensures Attempts(Next(s, lease, e).log, v) == Attempts(s.log, v) +
            (if (e.Advance? || e.Raise?) && s.workers[e.w].stage == VideoStored && s.workers[e.w].video == v
                && !NoToken(s.workers[e.w].row) then 1 else 0)
  {
    var s' := Next(s, lease, e);
    var more := s'.log[|s.log|..];
    assert s'.log == s.log + more;
    if |more| == 1 {
      AttemptsAppend(s.log, more[0], v);
      assert s'.log == s.log + [more[0]];
    } else if |more| == 2 {
      assert s'.log == s.log + [more[0]] + [more[1]];
      AttemptsAppend(s.log, more[0], v);
      AttemptsAppend(s.log + [more[0]], more[1], v);
    }
  }

  lemma NextAttempts(s: World, lease: nat, e: Event)
    requires Enabled(s, e)
    ensures AttemptStep(s, Next(s, lease, e), Actor(e))
  {
    forall v { NewAttempts(s, lease, e, v); }
    NextStages(s, lease, e);
    hide Next;
  }

  lemma NextStages(s: World, lease: nat, e: Event)
    requires Enabled(s, e)
    ensures forall i, v :: Working(s, i, v) && Working(Next(s, lease, e), i, v) && BeforeDraft(Next(s, lease, e).workers[i].stage) ==>
              BeforeDraft(s.workers[i].stage) && !(s.workers[i].stage == VideoStored && i == Actor(e) && (e.Advance? || e.Raise?))
  {
  }

  lemma StepAttempts(s: World, s': World, lease: nat, won: Option<string>, actor: nat)
    requires OneFinish(s) && Timely(s, lease)
    requires ClaimStep(s, s', lease, won, actor) && AttemptStep(s, s', actor)
    ensures AttemptsBounded(s')
  {
    if won.Some? {
      FirstClaim(s, lease, won.value);
    }
    forall i, v | Working(s', i, v) && BeforeDraft(s'.workers[i].stage) ensures Attempts(s'.log, v) == 0 {
      if !(won.Some? && i == actor) {
        assert Working(s, i, v);
        if Working(s, actor, v) {
          assert i == actor;
        }
      }
    }
  }

  lemma StepOneFinish(s: World, lease: nat, e: Event)
    requires OneFinish(s) && Enabled(s, e) && Clean(s, e) && Timely(s, lease)
    ensures OneFinish(Next(s, lease, e))
  {
    hide Next;
    NextClaims(s, lease, e);
    NextTokens(s, lease, e);
    NextJobs(s, lease, e);
    NextAttempts(s, lease, e);
    JoinOneFinish(s, Next(s, lease, e), lease, Winner(s, lease, e), Actor(e));
  }

  lemma JoinOneFinish(s: World, s': World, lease: nat, won: Option<string>, actor: nat)
    requires OneFinish(s) && Timely(s, lease) && TokensPresent(s')
    requires ClaimStep(s, s', lease, won, actor) && JobStep(s, s') && AttemptStep(s, s', actor)
    requires won.Some? ==> Working(s', actor, won.value)
    ensures OneFinish(s')
  {
    StepAtWork(s, s', lease, won, actor);
    StepAttempts(s, s', lease, won, actor);
  }

  /** Without deaths inside a finish and without missing tokens, and with every finish within its
      lease, the draft of a video is posted at most once, whatever else happens. */
  lemma {:induction false} DraftPostedOnce(s: World, lease: nat, run: seq<Event>)
    requires OneFinish(s) && Timely(s, lease) && IsRun(s, lease, run) && IsCleanRun(s, lease, run)
    ensures OneFinish(After(s, lease, run))
    decreases |run|
  {
    if run == [] {
    } else {
      StepOneFinish(s, lease, run[0]);
      DraftPostedOnce(Next(s, lease, run[0]), lease, run[1..]);
    }
  }

  /** All four from a fresh system. */
  lemma FromTheStart(s: World, lease: nat, run: seq<Event>, v: string)
    requires Fresh(s) && IsRun(s, lease, run)
    ensures Spaced(Claims(After(s, lease, run).log, v), lease)
    ensures IsCleanRun(s, lease, run) ==> Attempts(After(s, lease, run).log, v) <= 1
    ensures v in After(s, lease, run).rows ==>
              && (After(s, lease, run).rows[v].status == Complete ==> Delivered(After(s, lease, run).log, v))
              && (After(s, lease, run).rows[v].status != Pending ==> After(s, lease, run).rows[v].token.None?)
  {
    LeaseIsKept(s, lease, run);
    CompleteMeansDelivered(s, lease, run);
    TerminalIsForever(s, lease, run);
    if IsCleanRun(s, lease, run) {
      DraftPostedOnce(s, lease, run);
    }
  }

  // ---------------------------------------------------------------- no row is stranded

  /** One worker finds the video done and takes it to its end. */
  function FinishBy(w: nat, v: string): seq<Event> {
    [Pick(w, v), PollDone(w)] + AdvanceTimes(w, 5)
  }

  function AdvanceTimes(w: nat, n: nat): seq<Event> {
    if n == 0 then [] else [Advance(w)] + AdvanceTimes(w, n - 1)
  }

  lemma Then(s: World, lease: nat, e: Event, rest: seq<Event>)
    requires Enabled(s, e) && IsRun(Next(s, lease, e), lease, rest)
    ensures IsRun(s, lease, [e] + rest) && After(s, lease, [e] + rest) == After(Next(s, lease, e), lease, rest)
  {
  }

  /** What is still to come at a stage of an undisturbed finish. */
  function ToCome(stage: Stage, v: string): seq<Effect>
    requires !stage.Broken?
  {
    match stage
    case Start => [Thumb(v), Video(v), DraftAttempt(v), Draft(v)]
    case Fetched => [Thumb(v), Video(v), DraftAttempt(v), Draft(v)]
    case ThumbStored => [Video(v), DraftAttempt(v), Draft(v)]
    case VideoStored => [DraftAttempt(v), Draft(v)]
    case Drafted => []
  }

  function StepsLeft(stage: Stage): nat
    requires !stage.Broken?
  {
    match stage
    case Start => 5
    case Fetched => 4
    case ThumbStored => 3
    case VideoStored => 2
    case Drafted => 1
  }

  lemma {:induction false} FinishEnds(s: World, lease: nat, w: nat)
    requires Enabled(s, Advance(w)) && !NoToken(s.workers[w].row)
    ensures var job := s.workers[w];
            var run := AdvanceTimes(w, StepsLeft(job.stage));
            && IsRun(s, lease, run)
            && After(s, lease, run) ==
               World(Completed(s.rows, job.video, PublicUrl(job.row.userId, job.video)), s.now, s.workers[w := Idle],
                     s.log + ToCome(job.stage, job.video))
    decreases StepsLeft(s.workers[w].stage)
  {
    var job := s.workers[w];
    var s' := Next(s, lease, Advance(w));
    var n := StepsLeft(job.stage);
    if job.stage == Drafted {
      assert AdvanceTimes(w, 0) == [];
      assert s.log + [] == s.log;
    } else {
      FinishEnds(s', lease, w);
      assert s'.workers[w := Idle] == s.workers[w := Idle];
      assert s'.log + ToCome(s'.workers[w].stage, job.video) == s.log + ToCome(job.stage, job.video);
    }
    hide Next, Enabled;
    Then(s, lease, Advance(w), AdvanceTimes(w, n - 1));
  }

  lemma FinishesClaimable(s: World, lease: nat, w: nat, v: string)
    requires w < |s.workers| && s.workers[w].Idle? && Claimable(s.rows, v, s.now, lease)
    requires s.rows[v].comfyId.Some? && !NoToken(s.rows[v])
    ensures IsRun(s, lease, FinishBy(w, v))
    ensures After(s, lease, FinishBy(w, v)) ==
            World(Completed(Claimed(s.rows, v, s.now), v, PublicUrl(s.rows[v].userId, v)), s.now, s.workers,
                  s.log + [Claim(v, s.now), Thumb(v), Video(v), DraftAttempt(v), Draft(v)])
  {
    var s1 := Next(s, lease, Pick(w, v));
    var s2 := Next(s1, lease, PollDone(w));
    FinishEnds(s2, lease, w);
    assert s2.workers[w := Idle] == s.workers;
    assert s2.log + ToCome(Start, v) == s.log + [Claim(v, s.now), Thumb(v), Video(v), DraftAttempt(v), Draft(v)];
    var rest := AdvanceTimes(w, 5);
    Then(s1, lease, PollDone(w), rest);
    Then(s, lease, Pick(w, v), [PollDone(w)] + rest);
    assert [Pick(w, v)] + ([PollDone(w)] + rest) == FinishBy(w, v);
  }

  lemma LapsedIsClaimable(s: World, lease: nat, v: string)
    requires LeaseKept(s, lease) && IsPending(s.rows, v)
    ensures Claimable(s.rows, v, s.now + lease + 1, lease)
  {
  }

  /** A worker that dies inside a finish cannot strand a row. In every run, whatever died before: a pending
      row whose job is known and whose token is there can be finished by any idle worker once a lease has
      passed, from its claim to its completion and without touching another row. */
  lemma NoRowIsStranded(s: World, lease: nat, run: seq<Event>, w: nat, v: string)
    requires Fresh(s) && IsRun(s, lease, run)
    requires var u := After(s, lease, run);
             && w < |u.workers| && u.workers[w].Idle? && IsPending(u.rows, v)
             && u.rows[v].comfyId.Some? && !NoToken(u.rows[v])
    ensures var u := After(s, lease, run);
            var more := [Tick(lease + 1)] + FinishBy(w, v);
            && IsRun(u, lease, more)
            && var rows := After(u, lease, more).rows;
               && OnlyRow(u.rows, rows, v)
               && rows[v].status == Complete && rows[v].videoUrl == Some(PublicUrl(u.rows[v].userId, v))
               && Delivered(After(u, lease, more).log, v)
  {
    hide IsRun, After, LeaseKept, FinishBy, Claimable;
    LeaseIsKept(s, lease, run);
    var u := After(s, lease, run);
    var u' := u.(now := u.now + lease + 1);
    assert Next(u, lease, Tick(lease + 1)) == u';
    LapsedIsClaimable(u, lease, v);
    FinishesClaimable(u', lease, w, v);
    Then(u, lease, Tick(lease + 1), FinishBy(w, v));
    hide Next;
    var n, log := |u.log|, u.log + [Claim(v, u'.now), Thumb(v), Video(v), DraftAttempt(v), Draft(v)];
    assert log[n + 1] == Thumb(v) && log[n + 2] == Video(v) && log[n + 4] == Draft(v);
  }

  // ---------------------------------------------------------------- one worker, uninterrupted

  datatype Poll = StillPending | JobFailed | Done

  /** The step at which the finish raises, if any. */
  datatype Fault = NoFault | At(stage: Stage, reason: string)

  predicate Raises(fault: Fault, stage: Stage) {
    fault.At? && fault.stage == stage
  }

  /** `_advance_one` with nobody in between: it either leaves the row alone, or ends with the row
      complete and everything delivered, or failed with the reason, its draft posted only if it was
      closing the row that raised; only without a token is the row left claimed and pending. */
  method AdvanceOne(table: VideogenTable, video: string, row: Row, poll: Poll, fault: Fault, now: int, lease: nat)
    returns (log: seq<Effect>)
    modifies table
    ensures row.comfyId.None? || poll == StillPending ==> table.rows == old(table.rows) && log == []
    ensures row.comfyId.Some? && poll == JobFailed ==>
              table.rows == MarkedFailed(old(table.rows), video, "generation failed") && log == []
    ensures row.comfyId.Some? && poll == Done && !Claimable(old(table.rows), video, now, lease) ==>
              table.rows == old(table.rows) && log == []
    ensures row.comfyId.Some? && poll == Done && Claimable(old(table.rows), video, now, lease) ==>
              && log != [] && log[0] == Claim(video, now)
              && (fault.At? && BeforeDraft(fault.stage) && (fault.stage == VideoStored ==> !NoToken(row)) ==>
                    table.rows == MarkedFailed(Claimed(old(table.rows), video, now), video, fault.reason)
                    && (DraftAttempt(video) in log <==> fault.stage == VideoStored))
              && (Raises(fault, Drafted) && !NoToken(row) ==>
                    table.rows == MarkedFailed(Claimed(old(table.rows), video, now), video, fault.reason)
                    && Draft(video) in log)
              && ((fault == NoFault || fault.stage.Broken?) && !NoToken(row) ==>
                    table.rows == Completed(Claimed(old(table.rows), video, now), video, PublicUrl(row.userId, video))
                    && table.rows[video].status == Complete && Delivered(log, video))
              && (NoToken(row) && !(fault.At? && BeforeDraft(fault.stage) && fault.stage != VideoStored) ==>
                    table.rows == Claimed(old(table.rows), video, now) && DraftAttempt(video) !in log)
  {
    log := [];
    if row.comfyId.None? || poll == StillPending {
      return;
    }
    if poll == JobFailed {
      table.MarkFailed(video, "generation failed");
      return;
    }
    var won := table.ClaimForFinish(video, now, lease);
    if !won {
      return;
    }
    log := [Claim(video, now)];
    if Raises(fault, Start) || Raises(fault, Fetched) {
      table.MarkFailed(video, fault.reason);
      return;
    }
    log := log + [Thumb(video)];
    if Raises(fault, ThumbStored) {
      table.MarkFailed(video, fault.reason);
      return;
    }
    log := log + [Video(video)];
    if NoToken(row) {
      return;
    }
    log := log + [DraftAttempt(video)];
    if Raises(fault, VideoStored) {
      table.MarkFailed(video, fault.reason);
      return;
    }
    log := log + [Draft(video)];
    assert log[1] == Thumb(video) && log[2] == Video(video) && log[4] == Draft(video);
    if Raises(fault, Drafted) {
      table.MarkFailed(video, fault.reason);
      return;
    }
    table.MarkComplete(video, PublicUrl(row.userId, video));
  }

  // ---------------------------------------------------------------- posting to ComfyUI

  /** What became of one attempt: a reply, no connection, or a connection whose reply was lost. */
  datatype Outcome = Replied(success: bool) | NeverConnected | Lost(arrived: bool)

  predicate Arrived(o: Outcome) {
    o.Replied? || (o.Lost? && o.arrived)
  }

  function Deliveries(outcomes: seq<Outcome>): nat {
    if outcomes == [] then 0
    else Deliveries(outcomes[..|outcomes| - 1]) + (if Arrived(outcomes[|outcomes| - 1]) then 1 else 0)
  }

  /** `_post`: only a connection that never landed is retried, so at most one copy is delivered,
      exactly one on success, and none when all attempts failed to connect. */
  method Post(configured: int, outcomes: seq<Outcome>) returns (ok: bool, tries: nat)
    requires |outcomes| >= 1 && |outcomes| >= configured
    ensures 1 <= tries <= |outcomes| && (tries == 1 || tries <= configured)
    ensures Deliveries(outcomes[..tries]) <= 1
    ensures ok ==> Deliveries(outcomes[..tries]) == 1
    ensures ok <==> outcomes[tries - 1] == Replied(true)
    ensures forall i | 0 <= i < tries - 1 :: outcomes[i] == NeverConnected
    ensures !ok && outcomes[tries - 1] == NeverConnected ==>
              Deliveries(outcomes[..tries]) == 0 && tries == (if configured < 1 then 1 else configured)
  {
    var attempts := if configured < 1 then 1 else configured;
    tries := 0;
    while tries < attempts
      invariant tries <= attempts
      invariant Deliveries(outcomes[..tries]) == 0
      invariant forall i | 0 <= i < tries :: outcomes[i] == NeverConnected
    {
      var outcome := outcomes[tries];
      assert outcomes[..tries + 1][..tries] == outcomes[..tries];
      tries := tries + 1;
      match outcome
      case Replied(success) => return success, tries;
      case Lost(_) => return false, tries;
      case NeverConnected =>
    }
    ok := false;
  }
}
