/** Settling a bot's username, app/routes/influencers.py: `meera`, then `meera2`, `meera3`, ... until
    one is free. Truncation to 15 characters makes numbered names of different lengths collide. */
module Username {
  import opened Strings

  const MAX_LENGTH: int := 15
  const MIN_LENGTH: int := 3

  predicate IsNameChar(c: char) {
    'a' <= c <= 'z' || IsDigit(c)
  }

  predicate IsName(s: string) {
    forall i | 0 <= i < |s| :: IsNameChar(s[i])
  }

  /** `re.sub(r"[^a-z0-9]", "", s)` */
  function Keep(s: string, keep: char -> bool): (r: string)
    ensures |r| <= |s| && forall i | 0 <= i < |r| :: keep(r[i])
  {
    if s == [] then []
    else (if keep(s[0]) then [s[0]] else []) + Keep(s[1..], keep)
  }

  /** Python's `s[:k]`, which counts from the end when k is negative. */
  function SliceTo(s: string, k: int): string {
    if k >= |s| then s
    else if k >= 0 then s[..k]
    else if |s| + k >= 0 then s[..|s| + k]
    else ""
  }

  function BaseName(lowered: string): (base: string)
    ensures IsName(base) && MIN_LENGTH <= |base| <= MAX_LENGTH
  {
    var kept := SliceTo(Keep(lowered, IsNameChar), MAX_LENGTH);
    if |kept| < MIN_LENGTH then kept + "bot" else kept
  }

  /** The n-th name to try; the first is the bare base. */
  function Numbered(base: string, n: nat): string {
    if n <= 1 then base else SliceTo(base, MAX_LENGTH - |Decimal(n)|) + Decimal(n)
  }

  /** What the mobile client makes of a name: letters and digits only, at most 15, and padded with
      the bot's principal below 3. Its letters and digits include a-z and 0-9. */
  function ClientNormalised(name: string, letterOrDigit: char -> bool, principal: string): string {
    var kept := SliceTo(Keep(name, letterOrDigit), MAX_LENGTH);
    if |kept| < MIN_LENGTH then kept + principal else kept
  }

  lemma {:induction false} KeepAll(s: string, keep: char -> bool)
    requires forall i | 0 <= i < |s| :: keep(s[i])
    ensures Keep(s, keep) == s
  {
    if s == [] {
    } else {
      KeepAll(s[1..], keep);
    }
  }

  /** Filtering takes each character by itself, in order. */
  lemma {:induction false} KeepAppend(s: string, more: string, keep: char -> bool)
    ensures Keep(s + more, keep) == Keep(s, keep) + Keep(more, keep)
  {
    if s == [] {
      assert s + more == more;
    } else {
      assert (s + more)[1..] == s[1..] + more;
      KeepAppend(s[1..], more, keep);
    }
  }

  lemma KeepOne(c: char, keep: char -> bool)
    ensures Keep([c], keep) == if keep(c) then [c] else []
  {
    assert [c][1..] == [];
  }

  /** The base is the slug without what is no letter or digit: the first fifteen characters of that, with
      `bot` behind it where it has fewer than three. */
  lemma BaseIsSlug(lowered: string)
    ensures var kept := Keep(lowered, IsNameChar);
            && (|kept| > 15 ==> BaseName(lowered) == kept[..15])
            && (3 <= |kept| <= 15 ==> BaseName(lowered) == kept)
            && (|kept| < 3 ==> BaseName(lowered) == kept + "bot")
  {
  }

  /** A number goes behind the base, and the base gives way only by as much as the name would be too
      long. */
  lemma NumberedKeepsBase(base: string, n: nat)
    requires |base| <= 15 && n < Pow10(15)
    ensures n <= 1 ==> Numbered(base, n) == base
    ensures n > 1 ==>
              var name, digits := Numbered(base, n), Decimal(n);
              && |name| == (if |base| + |digits| <= 15 then |base| + |digits| else 15)
              && name[|name| - |digits|..] == digits && name[..|name| - |digits|] <= base
  {
    DecimalLength(n, 15);
  }

  /** A name of the right alphabet and length reaches /create as it was checked. */
  lemma ClientLeavesAlone(name: string, letterOrDigit: char -> bool, principal: string)
    requires IsName(name) && MIN_LENGTH <= |name| <= MAX_LENGTH
    requires forall c | IsNameChar(c) :: letterOrDigit(c)
    ensures ClientNormalised(name, letterOrDigit, principal) == name
  {
    KeepAll(name, letterOrDigit);
  }

  /** Numbers with d digits get different names, however the base is cut. */
  lemma NumberedInjective(base: string, a: nat, b: nat)
    requires a > 1 && b > 1 && |Decimal(a)| == |Decimal(b)| && Numbered(base, a) == Numbered(base, b)
    ensures a == b
  {
    var p := |SliceTo(base, MAX_LENGTH - |Decimal(a)|)|;
    assert Numbered(base, a)[p..] == Decimal(a) && Numbered(base, b)[p..] == Decimal(b);
    ValueOfDecimal(a);
    ValueOfDecimal(b);
  }

  lemma SameDigits(d: nat, n: nat)
    requires d >= 2 && Pow10(d - 1) <= n < Pow10(d)
    ensures |Decimal(n)| == d && n > 1
  {
    DecimalLength(n, d);
    DecimalLength(n, d - 1);
    Pow10Positive(d - 2);
  }

  /** If all names numbered lo to hi - 1 are taken, that many are. */
  lemma {:induction false} Pigeonhole(base: string, taken: set<string>, d: nat, lo: nat, hi: nat)
    requires d >= 2 && Pow10(d - 1) <= lo <= hi <= Pow10(d)
    requires forall n | lo <= n < hi :: Numbered(base, n) in taken
    ensures |taken| >= hi - lo
    decreases hi
  {
    if lo == hi {
    } else {
      var last := Numbered(base, hi - 1);
      forall n | lo <= n < hi - 1 ensures Numbered(base, n) in taken - {last} {
        SameDigits(d, n);
        SameDigits(d, hi - 1);
        if Numbered(base, n) == last {
          NumberedInjective(base, n, hi - 1);
        }
      }
      Pigeonhole(base, taken - {last}, d, lo, hi - 1);
    }
  }

  /** With fewer than 9 * 10^(d-1) names taken, some number below 10^d is free. */
  lemma FreeBelow(base: string, taken: set<string>, d: nat, n: nat)
    requires d >= 2 && |taken| < 9 * Pow10(d - 1)
    requires forall k | 1 <= k < n :: Numbered(base, k) in taken
    ensures n <= Pow10(d)
  {
    if n > Pow10(d) {
      assert Pow10(d) == 10 * Pow10(d - 1);
      Pow10Positive(d - 1);
      Pigeonhole(base, taken, d, Pow10(d - 1), Pow10(d));
    }
  }

  lemma {:induction false} Pow10Exceeds(n: nat)
    ensures Pow10(n) > n
  {
    if n == 0 {
    } else {
      Pow10Exceeds(n - 1);
    }
  }

  lemma NumberedShape(base: string, n: nat)
    requires IsName(base) && MIN_LENGTH <= |base| <= MAX_LENGTH && n < Pow10(15)
    ensures IsName(Numbered(base, n)) && MIN_LENGTH <= |Numbered(base, n)| <= MAX_LENGTH
  {
    DecimalLength(n, 15);
  }

  /** `lowered` is the proposed slug in lower case, `taken` the names influencers hold. `tried` is the
      number of the name that is returned. */
  method SettleUnusedSlug(lowered: string, taken: set<string>) returns (candidate: string, ghost tried: nat)
    ensures candidate !in taken
    ensures tried >= 1 && candidate == Numbered(BaseName(lowered), tried)
    ensures forall k | 1 <= k < tried :: Numbered(BaseName(lowered), k) in taken
    ensures forall d: nat | d >= 2 && |taken| < 9 * Pow10(d - 1) :: tried < Pow10(d)
    ensures |taken| < 9 * Pow10(14) ==> IsName(candidate) && MIN_LENGTH <= |candidate| <= MAX_LENGTH
    ensures |taken| < 9 * Pow10(14) ==>
              forall letterOrDigit: char -> bool, principal | (forall c | IsNameChar(c) :: letterOrDigit(c)) ::
                ClientNormalised(candidate, letterOrDigit, principal) == candidate
  {
    var base := BaseName(lowered);
    candidate := base;
    var n := 2;
    ghost var digits := |taken| + 2;
    Pow10Exceeds(digits - 1);
    while candidate in taken
      invariant n >= 2 && candidate == Numbered(base, n - 1)
      invariant forall k | 1 <= k < n - 1 :: Numbered(base, k) in taken
      decreases Pow10(digits) + 2 - n
    {
      FreeBelow(base, taken, digits, n);
      var suffix := Decimal(n);
      candidate := SliceTo(base, MAX_LENGTH - |suffix|) + suffix;
      n := n + 1;
    }
    tried := n - 1;
    forall d: nat | d >= 2 && |taken| < 9 * Pow10(d - 1) ensures tried < Pow10(d) {
      BelowPower(base, taken, d, tried);
    }
    if |taken| < 9 * Pow10(14) {
      NumberedShape(base, tried);
      forall letterOrDigit: char -> bool, principal | (forall c | IsNameChar(c) :: letterOrDigit(c))
        ensures ClientNormalised(candidate, letterOrDigit, principal) == candidate
      {
        ClientLeavesAlone(candidate, letterOrDigit, principal);
      }
    }
  }

  lemma BelowPower(base: string, taken: set<string>, d: nat, n: nat)
    requires d >= 2 && |taken| < 9 * Pow10(d - 1) && Numbered(base, n) !in taken
    requires forall k | 1 <= k < n :: Numbered(base, k) in taken
    ensures n < Pow10(d)
  {
    FreeBelow(base, taken, d, n);
    if n == Pow10(d) {
      Pow10Positive(d - 1);
      assert Pow10(d) == 10 * Pow10(d - 1);
      Pigeonhole(base, taken, d, Pow10(d - 1), Pow10(d));
    }
  }

  /** Truncation does collide names: 2 and 12 on a base that ends in 1 at the cut. */
  lemma NumbersCanCollide(stem: string)
    requires |stem| == 13
    ensures Numbered(stem + "1", 2) == Numbered(stem + "1", 12)
  {
  }
}
