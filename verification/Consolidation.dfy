/** The backfill of scripts/consolidate_identity_memories.py on the user_memories table, whose unique key
    counts NULL influencers as equal (migrations/009_user_profile_memory.sql). */
module Consolidation {
  import opened Options

  /** The unique key: no influencer means the row is global. */
  datatype Slot = Slot(user: string, influencer: Option<string>, key: string)

  datatype Fact = Fact(value: string, confidence: real, source: Option<string>, embedding: Option<string>)

  datatype Memory = Memory(category: string, fact: Fact, updatedAt: int)

  datatype Pair = Pair(user: string, key: string)

  type Table = map<Slot, Memory>

  const IDENTITY: string := "identity"

  function PairOf(s: Slot): Pair {
    Pair(s.user, s.key)
  }

  function Global(p: Pair): Slot {
    Slot(p.user, None, p.key)
  }

  predicate IsIdentity(t: Table, s: Slot) {
    s in t && t[s].category == IDENTITY
  }

  /** An identity row still filed under one influencer. */
  predicate Scattered(t: Table, s: Slot) {
    IsIdentity(t, s) && s.influencer.Some?
  }

  function Candidates(t: Table): set<Pair> {
    set s | s in t && Scattered(t, s) :: PairOf(s)
  }

  /** A most recently updated identity row of the pair; of equally recent ones any may be picked. */
  predicate IsWinner(t: Table, p: Pair, w: Slot) {
    && IsIdentity(t, w) && PairOf(w) == p
    && forall s | s in t && IsIdentity(t, s) && PairOf(s) == p :: t[s].updatedAt <= t[w].updatedAt
  }

  /** INSERT ... ON CONFLICT DO UPDATE of the global row: a row that is there keeps its category. */
  function Upserted(t: Table, p: Pair, fact: Fact, now: int): Table {
    var g := Global(p);
    t[g := Memory(if g in t then t[g].category else IDENTITY, fact, now)]
  }

  /** DELETE of the pair's scattered rows. */
  function Swept(t: Table, p: Pair): Table {
    map s | s in t && !(Scattered(t, s) && PairOf(s) == p) :: t[s]
  }

  function Consolidated(t: Table, p: Pair, fact: Fact, now: int): Table {
    Swept(Upserted(t, p, fact, now), p)
  }

  // ---------------------------------------------------------------- what the migration is for

  predicate Same(a: Table, b: Table, s: Slot) {
    (s in a <==> s in b) && (s in a ==> a[s] == b[s])
  }

  ghost predicate Untouched(before: Table, after: Table, p: Pair) {
    forall s | PairOf(s) == p :: Same(before, after, s)
  }

  /** The pair's scattered rows are gone, its other influencer rows are as they were, and its global row
      holds the fact of a most recently updated identity row. */
  ghost predicate Done(before: Table, after: Table, p: Pair) {
    var g := Global(p);
    && (forall s | PairOf(s) == p && s.influencer.Some? ::
          if Scattered(before, s) then s !in after else Same(before, after, s))
    && g in after
    && after[g].category == (if g in before then before[g].category else IDENTITY)
    && exists w :: IsWinner(before, p, w) && after[g].fact == before[w].fact
  }

  ghost predicate Migrated(before: Table, after: Table) {
    forall p :: if p in Candidates(before) then Done(before, after, p) else Untouched(before, after, p)
  }

  /** Some pairs are done and the others as they were. */
  ghost predicate PartlyMigrated(before: Table, mid: Table) {
    forall p :: Untouched(before, mid, p) || (p in Candidates(before) && Done(before, mid, p))
  }

  lemma ConsolidatedIsDone(before: Table, t: Table, p: Pair, w: Slot, now: int)
    requires Untouched(before, t, p) && IsWinner(t, p, w)
    ensures Done(before, Consolidated(t, p, t[w].fact, now), p)
  {
  }

  lemma OtherPairsUntouched(t: Table, p: Pair, fact: Fact, now: int, q: Pair)
    requires q != p
    ensures Untouched(t, Consolidated(t, p, fact, now), q)
  {
  }

  lemma UntouchedTrans(a: Table, b: Table, c: Table, p: Pair)
    requires Untouched(b, c, p)
    ensures Untouched(a, b, p) ==> Untouched(a, c, p)
    ensures Done(a, b, p) ==> Done(a, c, p)
  {
  }

  lemma CandidateHasIdentity(before: Table, t: Table, p: Pair)
    requires p in Candidates(before) && Untouched(before, t, p)
    ensures exists s :: s in t && IsIdentity(t, s) && PairOf(s) == p
  {
  }

  class Memories {
    var table: Table

    constructor (table: Table)
      ensures this.table == table
    {
      this.table := table;
    }

    method FindWinner(p: Pair) returns (w: Option<Slot>)
      ensures w.Some? ==> IsWinner(table, p, w.value)
      ensures w.None? ==> forall s | s in table :: !(IsIdentity(table, s) && PairOf(s) == p)
    {
      var rows := set s | s in table && IsIdentity(table, s) && PairOf(s) == p;
      var rest := rows;
      w := None;
      while rest != {}
        invariant rest <= rows && (w.None? ==> rest == rows)
        invariant w.Some? ==> w.value in rows && forall s | s in rows - rest :: table[s].updatedAt <= table[w.value].updatedAt
        decreases |rest|
      {
        var s :| s in rest;
        rest := rest - {s};
        if w.None? || table[s].updatedAt > table[w.value].updatedAt {
          w := Some(s);
        }
      }
      if w.None? {
        forall s | s in table ensures !(IsIdentity(table, s) && PairOf(s) == p) {
          assert s !in rows;
        }
      }
    }

    /** The transaction of one pair. */
    method UpsertAndDelete(p: Pair, fact: Fact, now: int)
      modifies this
      ensures table == Consolidated(old(table), p, fact, now)
      ensures Global(p) in table && table[Global(p)].fact == fact && table[Global(p)].updatedAt == now
      ensures table[Global(p)].category == if Global(p) in old(table) then old(table)[Global(p)].category else IDENTITY
      ensures forall s | s != Global(p) ::
                if Scattered(old(table), s) && PairOf(s) == p then s !in table else Same(old(table), table, s)
    {
      table := Upserted(table, p, fact, now);
      table := Swept(table, p);
    }

    /** One pair of the loop. */
    method ConsolidatePair(p: Pair, now: int, ghost before: Table)
      requires p in Candidates(before) && Untouched(before, table, p)
      modifies this
      ensures Done(before, table, p)
      ensures forall q | q != p :: Untouched(before, old(table), q) ==> Untouched(before, table, q)
      ensures forall q | q != p :: Done(before, old(table), q) ==> Done(before, table, q)
    {
      hide Done, Untouched, Candidates, Consolidated;
      ghost var t := table;
      CandidateHasIdentity(before, t, p);
      var w := FindWinner(p);
      if w.None? {
        // The script's skip: without another writer a candidate has an identity row.
        assert false;
      }
      UpsertAndDelete(p, table[w.value].fact, now);
      ConsolidatedIsDone(before, t, p, w.value, now);
      forall q | q != p
        ensures Untouched(before, t, q) ==> Untouched(before, table, q)
        ensures Done(before, t, q) ==> Done(before, table, q)
      {
        OtherPairsUntouched(t, p, t[w.value].fact, now, q);
        UntouchedTrans(before, t, table, q);
      }
    }

    /** The whole script, with no other writer. `clock` is the time of each transaction, `limit` the number
        of transactions after which the process dies. */
    method Run(clock: nat -> int, limit: nat) returns (consolidated: nat, exitCode: Option<int>)
      modifies this
      ensures PartlyMigrated(old(table), table)
      ensures limit >= |Candidates(old(table))| ==>
                Migrated(old(table), table) && consolidated == |Candidates(old(table))| && exitCode == Some(0)
      ensures limit < |Candidates(old(table))| ==> consolidated == limit && exitCode == None
    {
      ghost var before := table;
      var pending := Candidates(table);
      ghost var all := pending;
      consolidated := 0;
      while pending != {}
        invariant pending <= all == Candidates(before) && consolidated + |pending| == |all| && consolidated <= limit
        invariant forall p :: if p in all - pending then Done(before, table, p) else Untouched(before, table, p)
        decreases |pending|
      {
        hide Done, Untouched, Candidates;
        if consolidated == limit {
          return consolidated, None;
        }
        var p :| p in pending;
        pending := pending - {p};
        ConsolidatePair(p, clock(consolidated), before);
        consolidated := consolidated + 1;
      }
      MigratedLeavesNone(before, table);
      var remaining := set s | s in table && Scattered(table, s);
      exitCode := Some(if |remaining| > 0 then 1 else 0);
    }
  }

  lemma UntouchedWinner(a: Table, b: Table, p: Pair, w: Slot)
    requires Untouched(a, b, p)
    ensures IsWinner(a, p, w) <==> IsWinner(b, p, w)
  {
    forall s | PairOf(s) == p ensures IsIdentity(a, s) <==> IsIdentity(b, s) {
      assert Same(a, b, s);
    }
    assert PairOf(w) == p ==> Same(a, b, w);
    assert forall s | PairOf(s) == p :: Same(a, b, s);
  }

  lemma UntouchedCandidate(a: Table, b: Table, p: Pair)
    requires Untouched(a, b, p)
    ensures p in Candidates(a) <==> p in Candidates(b)
  {
    assert forall s | PairOf(s) == p :: Same(a, b, s);
    if p in Candidates(a) {
      var s :| s in a && Scattered(a, s) && PairOf(s) == p;
      assert Same(a, b, s) && Scattered(b, s);
    }
    if p in Candidates(b) {
      var s :| s in b && Scattered(b, s) && PairOf(s) == p;
      assert Same(a, b, s) && Scattered(a, s);
    }
  }

  lemma DoneIsNoCandidate(a: Table, b: Table, p: Pair)
    requires Done(a, b, p)
    ensures p !in Candidates(b)
  {
    forall s | PairOf(s) == p ensures !Scattered(b, s) {
      if s.influencer.Some? {
        assert if Scattered(a, s) then s !in b else Same(a, b, s);
      }
    }
  }

  lemma DoneFromUntouched(a: Table, b: Table, c: Table, p: Pair)
    requires Untouched(a, b, p) && Done(b, c, p)
    ensures Done(a, c, p)
  {
    assert Same(a, b, Global(p));
    forall s | PairOf(s) == p && s.influencer.Some? ensures if Scattered(a, s) then s !in c else Same(a, c, s) {
      assert Same(a, b, s);
    }
    var w :| IsWinner(b, p, w) && c[Global(p)].fact == b[w].fact;
    UntouchedWinner(a, b, p, w);
    assert Same(a, b, w);
  }

  /** Re-runnable: a run that died after any number of its transactions, and another to the end, do what
      one run does. */
  lemma ResumedRunMigrates(before: Table, mid: Table, after: Table)
    requires PartlyMigrated(before, mid) && Migrated(mid, after)
    ensures Migrated(before, after)
  {
    hide Done, Untouched, Candidates;
    forall p ensures if p in Candidates(before) then Done(before, after, p) else Untouched(before, after, p) {
      if Untouched(before, mid, p) {
        UntouchedCandidate(before, mid, p);
        if p in Candidates(mid) {
          DoneFromUntouched(before, mid, after, p);
        } else {
          UntouchedTrans(before, mid, after, p);
        }
      } else {
        DoneIsNoCandidate(before, mid, p);
        UntouchedTrans(before, mid, after, p);
      }
    }
  }

  /** Afterwards no identity row has an influencer. */
  lemma MigratedLeavesNone(before: Table, after: Table)
    requires Migrated(before, after)
    ensures forall s :: !Scattered(after, s)
    ensures Candidates(after) == {}
  {
    forall s ensures !Scattered(after, s) {
      if s in before && Scattered(before, s) {
        assert PairOf(s) in Candidates(before);
      }
      if PairOf(s) !in Candidates(before) {
        assert Same(before, after, s);
      }
    }
  }

  /** So a second run finds nothing and changes nothing. */
  lemma SecondRunIdle(before: Table, after: Table, again: Table)
    requires Migrated(before, after) && Migrated(after, again)
    ensures again == after
  {
    MigratedLeavesNone(before, after);
    forall s ensures Same(after, again, s) {
      assert PairOf(s) !in Candidates(after);
      assert Untouched(after, again, PairOf(s));
    }
    assert again.Keys == after.Keys by {
      forall s ensures s in again.Keys <==> s in after.Keys {
        assert Same(after, again, s);
      }
    }
    forall s | s in after ensures again[s] == after[s] {
      assert Same(after, again, s);
    }
  }

  /** Rows that are not identity rows, and rows of pairs with nothing scattered, are left alone, the
      global row of a consolidated pair apart. */
  lemma OthersLeftAlone(before: Table, after: Table, s: Slot)
    requires Migrated(before, after) && !Scattered(before, s)
    requires s.influencer.Some? || PairOf(s) !in Candidates(before)
    ensures Same(before, after, s)
  {
    var p := PairOf(s);
    if p in Candidates(before) {
      assert Done(before, after, p);
    } else {
      assert Untouched(before, after, p);
    }
  }

  /** The global row of a consolidated pair is an identity row exactly when no row of another category
      stood in its place: such a row keeps its category and loses its value. */
  lemma GlobalIsIdentityIff(before: Table, after: Table, p: Pair)
    requires Migrated(before, after) && p in Candidates(before)
    ensures IsIdentity(after, Global(p)) <==> Global(p) !in before || IsIdentity(before, Global(p))
  {
  }

  // ---------------------------------------------------------------- writes between the read and the transaction

  /** An upsert of the application, app/repositories/memory_repo.py:40-56: a row that is there keeps its
      category. */
  datatype Write = Write(slot: Slot, category: string, fact: Fact, at: int)

  function Written(t: Table, w: Write): Table {
    t[w.slot := Memory(if w.slot in t then t[w.slot].category else w.category, w.fact, w.at)]
  }

  function WrittenAll(t: Table, writes: seq<Write>): Table
    decreases |writes|
  {
    if writes == [] then t else WrittenAll(Written(t, writes[0]), writes[1..])
  }

  /** The write leaves an identity row of the pair. */
  predicate Counts(t: Table, p: Pair, w: Write) {
    PairOf(w.slot) == p && (if w.slot in t then t[w.slot].category else w.category) == IDENTITY
  }

  /** The fact of the last write that counts, or the one that was there. */
  function LatestFact(t: Table, p: Pair, writes: seq<Write>, fact: Fact): Fact
    decreases |writes|
  {
    if writes == [] then fact
    else LatestFact(Written(t, writes[0]), p, writes[1..], if Counts(t, p, writes[0]) then writes[0].fact else fact)
  }

  /** Stamps grow from one write to the next, and are later than what was read. */
  predicate Later(than: int, writes: seq<Write>)
    decreases |writes|
  {
    writes == [] || (writes[0].at > than && Later(writes[0].at, writes[1..]))
  }

  /** The global row holds the fact of a most recently updated identity row of the table `t`. */
  ghost predicate HoldsMostRecent(t: Table, after: Table, p: Pair) {
    Global(p) in after && exists v :: IsWinner(t, p, v) && after[Global(p)].fact == t[v].fact
  }

  ghost predicate Sole(t: Table, p: Pair, v: Slot) {
    IsWinner(t, p, v) && forall x | IsWinner(t, p, x) :: x == v
  }

  lemma WriteThatCounts(t: Table, p: Pair, v: Slot, w: Write)
    requires IsWinner(t, p, v) && Counts(t, p, w) && w.at > t[v].updatedAt
    ensures Sole(Written(t, w), p, w.slot)
  {
  }

  lemma WriteThatDoesNot(t: Table, p: Pair, w: Write, v: Slot)
    requires !Counts(t, p, w)
    ensures IsWinner(Written(t, w), p, v) <==> IsWinner(t, p, v)
    ensures IsWinner(t, p, v) ==> Written(t, w)[v] == t[v]
  {
    var u := Written(t, w);
    assert forall s :: IsIdentity(u, s) && PairOf(s) == p <==> IsIdentity(t, s) && PairOf(s) == p;
  }

  /** Through any writes, some winner holds the latest fact; once a write has counted it is the only one. */
  lemma {:induction false} LatestIsWinner(t: Table, p: Pair, v: Slot, writes: seq<Write>) returns (w: Slot)
    requires IsWinner(t, p, v) && Later(t[v].updatedAt, writes)
    ensures var u := WrittenAll(t, writes);
            && IsWinner(u, p, w) && u[w].fact == LatestFact(t, p, writes, t[v].fact)
            && (Sole(t, p, v) ==> Sole(u, p, w))
            && (Sole(u, p, w) || LatestFact(t, p, writes, t[v].fact) == t[v].fact)
    decreases |writes|
  {
    if writes == [] {
      w := v;
    } else {
      var u := Written(t, writes[0]);
      if Counts(t, p, writes[0]) {
        WriteThatCounts(t, p, v, writes[0]);
        w := LatestIsWinner(u, p, writes[0].slot, writes[1..]);
      } else {
        forall x ensures IsWinner(u, p, x) <==> IsWinner(t, p, x) {
          WriteThatDoesNot(t, p, writes[0], x);
        }
        WriteThatDoesNot(t, p, writes[0], v);
        w := LatestIsWinner(u, p, v, writes[1..]);
      }
    }
  }

  /** The winner is read before the transaction. Whatever the application writes in between, to the
      winner's own row, to the global row or to any other, the transaction leaves a most recent fact
      exactly when the last identity fact written for the pair is the one that was read. */
  lemma SafeMidTrafficIff(t: Table, p: Pair, w: Slot, writes: seq<Write>, now: int)
    requires IsWinner(t, p, w) && Later(t[w].updatedAt, writes)
    ensures var u := WrittenAll(t, writes);
            HoldsMostRecent(u, Consolidated(u, p, t[w].fact, now), p) <==> LatestFact(t, p, writes, t[w].fact) == t[w].fact
  {
    var u := WrittenAll(t, writes);
    var v := LatestIsWinner(t, p, w, writes);
    var after := Consolidated(u, p, t[w].fact, now);
    assert Global(p) in after && after[Global(p)].fact == t[w].fact;
  }

  /** One write to another row than the winner's, with a stamp of any age. */
  lemma SafeAfterOneWriteIff(t: Table, p: Pair, w: Slot, write: Write, now: int)
    requires IsWinner(t, p, w) && write.slot != w
    ensures var u := Written(t, write);
            HoldsMostRecent(u, Consolidated(u, p, t[w].fact, now), p) <==>
            !Counts(t, p, write) || write.at <= t[w].updatedAt || write.fact == t[w].fact
  {
    var u := Written(t, write);
    var after := Consolidated(u, p, t[w].fact, now);
    assert Global(p) in after && after[Global(p)].fact == t[w].fact && u[w] == t[w];
    if !Counts(t, p, write) {
      WriteThatDoesNot(t, p, write, w);
    } else if write.at <= t[w].updatedAt {
      assert IsWinner(u, p, w);
    } else {
      WriteThatCounts(t, p, w, write);
    }
  }

  /** The input outside it: a newer identity fact, filed under an influencer or, as new extractions are,
      globally. It is deleted or overwritten, and no identity row of the pair holds it any more. */
  lemma StaleWinnerLosesUpdate(t: Table, p: Pair, w: Slot, s: Slot, newer: Fact, at: int, now: int)
    requires IsWinner(t, p, w) && PairOf(s) == p && (s in t ==> t[s].category == IDENTITY)
    requires at > t[w].updatedAt && newer != t[w].fact
    ensures var u := Written(t, Write(s, IDENTITY, newer, at));
            var after := Consolidated(u, p, t[w].fact, now);
            && IsWinner(u, p, s) && u[s].fact == newer
            && Global(p) in after && after[Global(p)].fact == t[w].fact
            && forall r | IsIdentity(after, r) && PairOf(r) == p :: after[r].fact != newer
  {
    WriteThatCounts(t, p, w, Write(s, IDENTITY, newer, at));
  }
}
