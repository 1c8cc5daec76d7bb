/** The fixed-bucket rate limiter of app/rate_limiter.py. Times are whole microseconds since the epoch. */
module RateLimit {
  import opened Strings

  const SECOND: int := 1_000_000
  const MINUTE: int := 60 * SECOND
  const HOUR: int := 3600 * SECOND
  const MINUTE_TTL: int := 120 * SECOND
  const HOUR_TTL: int := 7200 * SECOND

  datatype Scope = User | Ip

  datatype Window = PerMinute | PerHour

  datatype Limits = Limits(userPerMin: nat, userPerHour: nat, ipPerMin: nat, ipPerHour: nat)

  function Length(w: Window): int {
    if w.PerMinute? then MINUTE else HOUR
  }

  function Ttl(w: Window): int {
    if w.PerMinute? then MINUTE_TTL else HOUR_TTL
  }

  function Limit(limits: Limits, scope: Scope, w: Window): nat {
    match (scope, w)
    case (User, PerMinute) => limits.userPerMin
    case (User, PerHour) => limits.userPerHour
    case (Ip, PerMinute) => limits.ipPerMin
    case (Ip, PerHour) => limits.ipPerHour
  }

  /** A bucket: who, which window, and the number of the UTC minute or hour. */
  datatype Key = Key(scope: Scope, identity: string, window: Window, index: int)

  /** One request: the replica's clock and the Redis clock when its pipeline runs. */
  datatype Hit = Hit(scope: Scope, identity: string, now: int, redis: int)

  function KeyOf(h: Hit, w: Window): Key {
    Key(h.scope, h.identity, w, h.now / Length(w))
  }

  datatype Counter = Counter(count: nat, expires: int)

  type Store = map<Key, Counter>

  /** INCR then EXPIRE: a key past its expiry is gone. */
  function Bump(store: Store, k: Key, redis: int): Store {
    var before := if k in store && redis < store[k].expires then store[k].count else 0;
    store[k := Counter(before + 1, redis + Ttl(k.window))]
  }

  function Step(store: Store, h: Hit): Store {
    Bump(Bump(store, KeyOf(h, PerMinute), h.redis), KeyOf(h, PerHour), h.redis)
  }

  datatype Verdict = Allowed | Exceeded(window: Window, used: nat, limit: nat)

  class Redis {
    var store: Store

    constructor ()
      ensures store == map[]
    {
      store := map[];
    }

    method Incr(k: Key, redis: int) returns (count: nat)
      modifies this
      ensures store == Bump(old(store), k, redis) && count == store[k].count
      ensures count == if k in old(store) && redis < old(store)[k].expires then old(store)[k].count + 1 else 1
      ensures store[k].expires == redis + (if k.window == PerMinute then 120_000_000 else 7_200_000_000)
      ensures store.Keys == old(store).Keys + {k} && forall x | x in old(store) && x != k :: store[x] == old(store)[x]
    {
      count := 1;
      if k in store && redis < store[k].expires {
        count := store[k].count + 1;
      }
      store := store[k := Counter(count, redis + Ttl(k.window))];
    }

    /** Both counters go up whatever the outcome; the minute is judged first. */
    method HitAndCheck(h: Hit, limits: Limits) returns (v: Verdict)
      modifies this
      ensures store == Step(old(store), h)
      ensures v == Judged(store, h, limits)
    {
      var minCount := Incr(KeyOf(h, PerMinute), h.redis);
      var hourCount := Incr(KeyOf(h, PerHour), h.redis);
      var minLimit, hourLimit := Limit(limits, h.scope, PerMinute), Limit(limits, h.scope, PerHour);
      if minCount > minLimit {
        return Exceeded(PerMinute, minCount, minLimit);
      }
      if hourCount > hourLimit {
        return Exceeded(PerHour, hourCount, hourLimit);
      }
      return Allowed;
    }
  }

  function Judged(store: Store, h: Hit, limits: Limits): Verdict
    requires KeyOf(h, PerMinute) in store && KeyOf(h, PerHour) in store
  {
    var m, n := store[KeyOf(h, PerMinute)].count, store[KeyOf(h, PerHour)].count;
    var minLimit, hourLimit := Limit(limits, h.scope, PerMinute), Limit(limits, h.scope, PerHour);
    if m > minLimit then Exceeded(PerMinute, m, minLimit)
    else if n > hourLimit then Exceeded(PerHour, n, hourLimit)
    else Allowed
  }

  // ---------------------------------------------------------------- histories

  function StoreAfter(hits: seq<Hit>): Store {
    if hits == [] then map[] else Step(StoreAfter(hits[..|hits| - 1]), hits[|hits| - 1])
  }

  /** How the i-th request is judged. */
  function Outcome(hits: seq<Hit>, limits: Limits, i: nat): Verdict
    requires i < |hits|
  {
    assert hits[..i + 1][..i] == hits[..i];
    Judged(StoreAfter(hits[..i + 1]), hits[i], limits)
  }

  predicate Within(h: Hit, k: Key) {
    KeyOf(h, k.window) == k
  }

  /** How many of the first n requests fall into bucket k. */
  function Count(hits: seq<Hit>, k: Key, n: nat): nat
    requires n <= |hits|
  {
    if n == 0 then 0 else Count(hits, k, n - 1) + (if Within(hits[n - 1], k) then 1 else 0)
  }

  /** How many of those were allowed. */
  function Granted(hits: seq<Hit>, limits: Limits, k: Key, n: nat): nat
    requires n <= |hits|
  {
    if n == 0 then 0
    else Granted(hits, limits, k, n - 1) + (if Within(hits[n - 1], k) && Outcome(hits, limits, n - 1).Allowed? then 1 else 0)
  }

  /** Every replica's clock is at most half a minute off the Redis clock. */
  predicate ClocksAgree(hits: seq<Hit>) {
    forall i | 0 <= i < |hits| :: -30 * SECOND <= hits[i].now - hits[i].redis <= 30 * SECOND
  }

  predicate Tracks(store: Store, hits: seq<Hit>, k: Key, n: nat)
    requires n <= |hits|
  {
    if Count(hits, k, n) == 0 then k !in store
    else
      && k in store && store[k].count == Count(hits, k, n)
      && exists j | 0 <= j < n :: Within(hits[j], k) && store[k].expires == hits[j].redis + Ttl(k.window)
  }

  lemma BumpTracks(store: Store, hits: seq<Hit>, k: Key, n: nat)
    requires n < |hits| && ClocksAgree(hits) && Tracks(store, hits, k, n) && Within(hits[n], k)
    ensures Tracks(Bump(store, k, hits[n].redis), hits, k, n + 1)
  {
  }

  lemma OtherTracks(store: Store, hits: seq<Hit>, k: Key, k': Key, n: nat)
    requires n <= |hits| && Tracks(store, hits, k, n) && k != k'
    ensures forall redis :: Tracks(Bump(store, k', redis), hits, k, n)
  {
  }

  /** While the clocks agree no counter is evicted inside its own bucket: each one holds exactly the
      number of requests its bucket has seen. */
  lemma {:induction false} CountersAreExact(hits: seq<Hit>, k: Key, n: nat)
    requires n <= |hits| && ClocksAgree(hits)
    ensures Tracks(StoreAfter(hits[..n]), hits, k, n)
  {
    if n == 0 {
    } else {
      var h := hits[n - 1];
      assert hits[..n][..n - 1] == hits[..n - 1];
      CountersAreExact(hits, k, n - 1);
      var store := StoreAfter(hits[..n - 1]);
      var m, o := KeyOf(h, PerMinute), KeyOf(h, PerHour);
      var mid := Bump(store, m, h.redis);
      if k == m {
        BumpTracks(store, hits, k, n - 1);
        OtherTracks(mid, hits, k, o, n);
      } else {
        OtherTracks(store, hits, k, m, n - 1);
        if k == o {
          BumpTracks(mid, hits, k, n - 1);
        } else {
          OtherTracks(mid, hits, k, o, n - 1);
        }
      }
    }
  }

  /** How many of the first n requests came from h's user or address in h's stretch of `length`. */
  function SameStretch(hits: seq<Hit>, h: Hit, length: int, n: nat): nat
    requires n <= |hits| && length > 0
  {
    if n == 0 then 0
    else
      var o := hits[n - 1];
      SameStretch(hits, h, length, n - 1) +
      (if o.scope == h.scope && o.identity == h.identity && o.now / length == h.now / length then 1 else 0)
  }

  lemma {:induction false} CountIsStretch(hits: seq<Hit>, h: Hit, n: nat)
    requires n <= |hits|
    ensures Count(hits, KeyOf(h, PerMinute), n) == SameStretch(hits, h, 60_000_000, n)
    ensures Count(hits, KeyOf(h, PerHour), n) == SameStretch(hits, h, 3_600_000_000, n)
  {
    if n == 0 {
    } else {
      CountIsStretch(hits, h, n - 1);
    }
  }

  /** How a request is judged while the clocks agree. It is refused for the minute exactly when, with it, more
      requests of its user or address fell into this UTC minute than that scope's limit by the minute; else
      for the hour likewise; and otherwise allowed. */
  lemma JudgedIs(hits: seq<Hit>, limits: Limits, i: nat)
    requires i < |hits| && ClocksAgree(hits)
    ensures var h := hits[i];
            var minute, hour := SameStretch(hits, h, 60_000_000, i + 1), SameStretch(hits, h, 3_600_000_000, i + 1);
            var perMin := if h.scope == User then limits.userPerMin else limits.ipPerMin;
            var perHour := if h.scope == User then limits.userPerHour else limits.ipPerHour;
            Outcome(hits, limits, i) ==
            if minute > perMin then Exceeded(PerMinute, minute, perMin)
            else if hour > perHour then Exceeded(PerHour, hour, perHour)
            else Allowed
  {
    CountersAreExact(hits, KeyOf(hits[i], PerMinute), i + 1);
    CountersAreExact(hits, KeyOf(hits[i], PerHour), i + 1);
    CountIsStretch(hits, hits[i], i + 1);
    hide StoreAfter;
  }

  /** Within one UTC minute, and within one UTC hour, no more requests are allowed than the limit. */
  lemma {:induction false} BucketBound(hits: seq<Hit>, limits: Limits, k: Key, n: nat)
    requires n <= |hits| && ClocksAgree(hits)
    ensures Granted(hits, limits, k, n) <= Limit(limits, k.scope, k.window)
    ensures Granted(hits, limits, k, n) <= Count(hits, k, n)
  {
    if n == 0 {
    } else {
      BucketBound(hits, limits, k, n - 1);
      if Within(hits[n - 1], k) {
        CountersAreExact(hits, k, n);
      }
    }
  }

  /** Requests of one identity allowed in the span of one window's length from t on, both ends included. */
  function GrantedIn(hits: seq<Hit>, limits: Limits, scope: Scope, identity: string, w: Window, t: int, n: nat): nat
    requires n <= |hits|
  {
    if n == 0 then 0
    else
      var h := hits[n - 1];
      GrantedIn(hits, limits, scope, identity, w, t, n - 1) +
      (if h.scope == scope && h.identity == identity && t <= h.now <= t + Length(w) && Outcome(hits, limits, n - 1).Allowed?
       then 1 else 0)
  }

  lemma TwoBuckets(now: int, t: int, w: Window)
    requires t <= now <= t + Length(w)
    ensures now / Length(w) == t / Length(w) || now / Length(w) == t / Length(w) + 1
  {
  }

  lemma {:induction false} SpanSplits(hits: seq<Hit>, limits: Limits, scope: Scope, identity: string, w: Window, t: int, n: nat)
    requires n <= |hits|
    ensures var k := t / Length(w);
            GrantedIn(hits, limits, scope, identity, w, t, n) <=
            Granted(hits, limits, Key(scope, identity, w, k), n) + Granted(hits, limits, Key(scope, identity, w, k + 1), n)
  {
    if n == 0 {
    } else {
      SpanSplits(hits, limits, scope, identity, w, t, n - 1);
      var h := hits[n - 1];
      if t <= h.now <= t + Length(w) {
        TwoBuckets(h.now, t, w);
      }
    }
  }

  /** In any span of sixty seconds at most twice the minute limit is allowed, in any span of an hour at
      most twice the hour limit. */
  lemma SpanBound(hits: seq<Hit>, limits: Limits, scope: Scope, identity: string, w: Window, t: int)
    requires ClocksAgree(hits)
    ensures GrantedIn(hits, limits, scope, identity, w, t, |hits|) <= 2 * Limit(limits, scope, w)
  {
    var k := t / Length(w);
    SpanSplits(hits, limits, scope, identity, w, t, |hits|);
    BucketBound(hits, limits, Key(scope, identity, w, k), |hits|);
    BucketBound(hits, limits, Key(scope, identity, w, k + 1), |hits|);
  }

  // ---------------------------------------------------------------- how sharp this is

  /** One microsecond more of clock difference, and a minute counter can be evicted inside its minute:
      with a limit of one, two requests of one minute are allowed. */
  lemma MoreSkewForgets(scope: Scope, identity: string, limits: Limits)
    requires Limit(limits, scope, PerMinute) == 1 && Limit(limits, scope, PerHour) >= 2
    ensures var hits := [Hit(scope, identity, 0, -30 * SECOND - 1),
                         Hit(scope, identity, MINUTE - 1, MINUTE + 30 * SECOND)];
            Outcome(hits, limits, 0).Allowed? && Outcome(hits, limits, 1).Allowed?
            && KeyOf(hits[0], PerMinute) == KeyOf(hits[1], PerMinute)
  {
    var hits := [Hit(scope, identity, 0, -30 * SECOND - 1), Hit(scope, identity, MINUTE - 1, MINUTE + 30 * SECOND)];
    assert hits[..0] == [] && hits[..1] == [hits[0]] && hits[..2] == hits;
    assert hits[..1][..0] == [] && hits[..2][..1] == hits[..1];
    assert StoreAfter(hits[..1]) == Step(map[], hits[0]);
    assert StoreAfter(hits[..2]) == Step(StoreAfter(hits[..1]), hits[1]);
  }

  /** `limit` requests in the last microsecond of a minute and as many in the first of the next. */
  function Burst(scope: Scope, identity: string, limit: nat): (hits: seq<Hit>)
    ensures |hits| == 2 * limit
  {
    seq(2 * limit, i requires 0 <= i < 2 * limit =>
      if i < limit then Hit(scope, identity, MINUTE - 1, MINUTE - 1) else Hit(scope, identity, MINUTE, MINUTE))
  }

  lemma {:induction false} BurstCounts(scope: Scope, identity: string, limit: nat, n: nat)
    requires n <= 2 * limit
    ensures var hits := Burst(scope, identity, limit);
            && Count(hits, Key(scope, identity, PerMinute, 0), n) == (if n <= limit then n else limit)
            && Count(hits, Key(scope, identity, PerMinute, 1), n) == (if n <= limit then 0 else n - limit)
            && Count(hits, Key(scope, identity, PerHour, 0), n) == n
  {
    if n == 0 {
    } else {
      BurstCounts(scope, identity, limit, n - 1);
    }
  }

  lemma BurstAllowed(scope: Scope, identity: string, limits: Limits, n: nat)
    requires Limit(limits, scope, PerHour) >= 2 * Limit(limits, scope, PerMinute)
    requires n < 2 * Limit(limits, scope, PerMinute)
    ensures Outcome(Burst(scope, identity, Limit(limits, scope, PerMinute)), limits, n).Allowed?
  {
    hide Burst, StoreAfter, Count;
    var hits := Burst(scope, identity, Limit(limits, scope, PerMinute));
    BurstHit(scope, identity, Limit(limits, scope, PerMinute), n);
    BurstCounts(scope, identity, Limit(limits, scope, PerMinute), n + 1);
    CountersAreExact(hits, KeyOf(hits[n], PerMinute), n + 1);
    CountersAreExact(hits, KeyOf(hits[n], PerHour), n + 1);
  }

  lemma BurstHit(scope: Scope, identity: string, limit: nat, n: nat)
    requires n < 2 * limit
    ensures ClocksAgree(Burst(scope, identity, limit))
    ensures Burst(scope, identity, limit)[n] ==
            if n < limit then Hit(scope, identity, MINUTE - 1, MINUTE - 1) else Hit(scope, identity, MINUTE, MINUTE)
  {
  }

  /** So twice the limit is reached, and within a microsecond: the bound cannot be lowered. */
  lemma {:induction false} BurstIsGranted(scope: Scope, identity: string, limits: Limits, n: nat)
    requires Limit(limits, scope, PerHour) >= 2 * Limit(limits, scope, PerMinute)
    requires n <= 2 * Limit(limits, scope, PerMinute)
    ensures GrantedIn(Burst(scope, identity, Limit(limits, scope, PerMinute)), limits, scope, identity, PerMinute,
                      MINUTE - 1, n) == n
  {
    hide Burst, Outcome;
    if n == 0 {
    } else {
      BurstIsGranted(scope, identity, limits, n - 1);
      BurstAllowed(scope, identity, limits, n - 1);
      BurstHit(scope, identity, Limit(limits, scope, PerMinute), n - 1);
    }
  }

  // ---------------------------------------------------------------- the calendar

  datatype Date = Date(year: nat, month: nat, day: nat)

  predicate Leap(year: nat) {
    year % 4 == 0 && (year % 100 != 0 || year % 400 == 0)
  }

  function DaysIn(year: nat, month: nat): nat {
    if month == 2 then (if Leap(year) then 29 else 28)
    else if month == 4 || month == 6 || month == 9 || month == 11 then 30
    else 31
  }

  function NextDay(d: Date): Date {
    if d.day < DaysIn(d.year, d.month) then d.(day := d.day + 1)
    else if d.month < 12 then Date(d.year, d.month + 1, 1)
    else Date(d.year + 1, 1, 1)
  }

  /** The date n days after the epoch. */
  function DateOf(n: nat): (d: Date)
    ensures 1 <= d.month <= 12 && 1 <= d.day <= DaysIn(d.year, d.month)
  {
    if n == 0 then Date(1970, 1, 1) else NextDay(DateOf(n - 1))
  }

  /** Dates order as numbers. */
  function Rank(d: Date): nat {
    (d.year * 12 + d.month) * 31 + d.day
  }

  lemma {:induction false} DatesGrow(m: nat, n: nat)
    requires m < n
    ensures Rank(DateOf(m)) < Rank(DateOf(n)) && DateOf(m).year <= DateOf(n).year
  {
    if m == n - 1 {
    } else {
      DatesGrow(m, n - 1);
    }
  }

  // ---------------------------------------------------------------- the Redis key strings

  /** n in `width` digits, padded with zeros. */
  function Padded(n: nat, width: nat): (s: string)
    ensures |s| == width && forall i | 0 <= i < |s| :: IsDigit(s[i])
  {
    if width == 0 then "" else Padded(n / 10, width - 1) + [Digit(n % 10)]
  }

  lemma {:induction false} PaddedInjective(m: nat, n: nat, width: nat)
    requires m < Pow10(width) && n < Pow10(width) && Padded(m, width) == Padded(n, width)
    ensures m == n
  {
    if width == 0 {
    } else {
      var s, t := Padded(m, width), Padded(n, width);
      assert s[width - 1] == Digit(m % 10) && t[width - 1] == Digit(n % 10);
      assert s[..width - 1] == Padded(m / 10, width - 1) && t[..width - 1] == Padded(n / 10, width - 1);
      PaddedInjective(m / 10, n / 10, width - 1);
    }
  }

  /** `strftime("%Y%m%d")` */
  function Day(d: Date): (s: string)
    ensures |s| == 8 && forall i | 0 <= i < 8 :: IsDigit(s[i])
  {
    Padded(d.year, 4) + Padded(d.month, 2) + Padded(d.day, 2)
  }

  lemma DayInjective(m: nat, n: nat)
    requires DateOf(m).year <= 9999 && DateOf(n).year <= 9999 && Day(DateOf(m)) == Day(DateOf(n))
    ensures m == n
  {
    var d, e := DateOf(m), DateOf(n);
    assert Day(d)[..4] == Padded(d.year, 4) && Day(e)[..4] == Padded(e.year, 4);
    assert Day(d)[4..6] == Padded(d.month, 2) && Day(e)[4..6] == Padded(e.month, 2);
    assert Day(d)[6..] == Padded(d.day, 2) && Day(e)[6..] == Padded(e.day, 2);
    TensOfThousands();
    PaddedInjective(d.year, e.year, 4);
    PaddedInjective(d.month, e.month, 2);
    PaddedInjective(d.day, e.day, 2);
    if m < n {
      DatesGrow(m, n);
    } else if n < m {
      DatesGrow(n, m);
    }
  }

  lemma TensOfThousands()
    ensures Pow10(2) == 100 && Pow10(4) == 10000
  {
    assert Pow10(3) == 10 * Pow10(2) && Pow10(2) == 10 * Pow10(1) && Pow10(1) == 10 * Pow10(0);
  }

  function PerDay(w: Window): nat {
    if w.PerMinute? then 1440 else 24
  }

  /** A bucket of a date that Python can hold. */
  predicate Dated(k: Key) {
    k.index >= 0 && DateOf(k.index / PerDay(k.window)).year <= 9999
  }

  /** `strftime("%Y%m%d%H%M")` of the minute, `strftime("%Y%m%d%H")` of the hour. */
  function Stamp(k: Key): (s: string)
    requires Dated(k)
    ensures |s| == (if k.window.PerMinute? then 12 else 10) && forall i | 0 <= i < |s| :: IsDigit(s[i])
  {
    var within := k.index % PerDay(k.window);
    Day(DateOf(k.index / PerDay(k.window))) +
    if k.window.PerMinute? then Padded(within / 60, 2) + Padded(within % 60, 2) else Padded(within, 2)
  }

  lemma HoursAgree(k: Key, l: Key)
    requires Dated(k) && Dated(l) && k.window == l.window == PerHour && Stamp(k) == Stamp(l)
    ensures k.index % 24 == l.index % 24
  {
    var i, j := k.index % 24, l.index % 24;
    TensOfThousands();
    assert Stamp(k)[8..] == Padded(i, 2) && Stamp(l)[8..] == Padded(j, 2);
    hide Stamp, Padded, Dated, Day;
    PaddedInjective(i, j, 2);
  }

  lemma MinutesAgree(k: Key, l: Key)
    requires Dated(k) && Dated(l) && k.window == l.window == PerMinute && Stamp(k) == Stamp(l)
    ensures k.index % 1440 == l.index % 1440
  {
    var i, j := k.index % 1440, l.index % 1440;
    TensOfThousands();
    assert Stamp(k)[8..10] == Padded(i / 60, 2) && Stamp(l)[8..10] == Padded(j / 60, 2);
    assert Stamp(k)[10..] == Padded(i % 60, 2) && Stamp(l)[10..] == Padded(j % 60, 2);
    hide Stamp, Padded, Dated, Day;
    PaddedInjective(i / 60, j / 60, 2);
    PaddedInjective(i % 60, j % 60, 2);
  }

  lemma DatesAgree(k: Key, l: Key)
    requires Dated(k) && Dated(l) && k.window == l.window && Stamp(k) == Stamp(l)
    ensures k.index / PerDay(k.window) == l.index / PerDay(l.window)
  {
    var n := PerDay(k.window);
    assert Stamp(k)[..8] == Day(DateOf(k.index / n)) && Stamp(l)[..8] == Day(DateOf(l.index / n));
    hide Stamp, Day;
    DayInjective(k.index / n, l.index / n);
  }

  lemma StampInjective(k: Key, l: Key)
    requires Dated(k) && Dated(l) && k.window == l.window && Stamp(k) == Stamp(l)
    ensures k.index == l.index
  {
    hide Stamp, Dated;
    DatesAgree(k, l);
    if k.window.PerMinute? {
      MinutesAgree(k, l);
    } else {
      HoursAgree(k, l);
    }
  }

  function Head(scope: Scope): string {
    if scope.User? then "rate:per_user:" else "rate:per_ip:"
  }

  function Middle(w: Window): string {
    if w.PerMinute? then ":min:" else ":hour:"
  }

  /** `_bucket_keys` */
  function Rendered(k: Key): string
    requires Dated(k)
  {
    Head(k.scope) + k.identity + Middle(k.window) + Stamp(k)
  }

  lemma RenderedParts(k: Key)
    requires Dated(k)
    ensures var s, head, tail := Rendered(k), |Head(k.scope)|, |Middle(k.window)| + |Stamp(k)|;
            && |s| == head + |k.identity| + tail
            && s[9] == (if k.scope.User? then 'u' else 'i')
            && (s[|s| - 11] == ':' <==> k.window.PerHour?)
            && s[|s| - |Stamp(k)|..] == Stamp(k)
            && s[head..|s| - tail] == k.identity
  {
    var s := Rendered(k);
    if k.window.PerMinute? {
      assert s[|s| - 11] == Stamp(k)[1];
    }
  }

  /** No two buckets share a Redis key, whatever characters the identities hold. */
  lemma KeysNeverCollide(k: Key, l: Key)
    requires Dated(k) && Dated(l) && Rendered(k) == Rendered(l)
    ensures k == l
  {
    hide Rendered, Stamp, Dated;
    RenderedParts(k);
    RenderedParts(l);
    StampInjective(k, l);
  }
}
