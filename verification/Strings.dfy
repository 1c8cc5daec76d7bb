/** The Python string operations the other modules share: find, strip, decimal numbers. */
module Strings {
  /** `pat` stands in `text` at index `i`. */
  predicate At(text: string, pat: string, i: nat) {
    i + |pat| <= |text| && text[i..i + |pat|] == pat
  }

  /** `pat in text` */
  ghost predicate Has(text: string, pat: string) {
    exists i: nat :: At(text, pat, i)
  }

  /** `text.find(pat, start)` */
  function Find(text: string, pat: string, start: nat): (r: int)
    ensures r == -1 || (start <= r && At(text, pat, r))
    ensures forall j: nat :: start <= j && (r == -1 || j < r) ==> !At(text, pat, j)
    decreases |text| - start
  {
    if start + |pat| > |text| then -1
    else if At(text, pat, start) then start
    else if start == |text| then -1
    else Find(text, pat, start + 1)
  }

  lemma FindUnique(text: string, pat: string, i: nat)
    requires At(text, pat, i) && forall j: nat | j < i :: !At(text, pat, j)
    ensures Find(text, pat, 0) == i
  {
  }

  lemma AtChar(text: string, pat: string, i: nat, k: nat)
    requires At(text, pat, i) && k < |pat|
    ensures text[i + k] == pat[k]
  {
  }

  /** An occurrence that ends inside `text` does not depend on what follows. */
  lemma AtPrefix(text: string, more: string, pat: string, i: nat)
    requires i + |pat| <= |text|
    ensures At(text + more, pat, i) <==> At(text, pat, i)
  {
  }

  lemma AtSuffix(text: string, from: nat, pat: string, i: nat)
    requires from <= |text|
    ensures At(text[from..], pat, i) <==> At(text, pat, from + i)
  {
  }

  /** When nothing can start before `from`, searching the suffix is searching the text. */
  lemma FindInSuffix(text: string, from: nat, pat: string)
    requires from <= |text| && forall j: nat | At(text, pat, j) :: j >= from
    ensures var p := Find(text[from..], pat, 0); Find(text, pat, 0) == if p == -1 then -1 else from + p
  {
    var p, q := Find(text[from..], pat, 0), Find(text, pat, 0);
    if q != -1 {
      AtSuffix(text, from, pat, q - from);
    }
    if p != -1 {
      AtSuffix(text, from, pat, p);
      forall j: nat | j < from + p ensures !At(text, pat, j) {
        if j >= from {
          AtSuffix(text, from, pat, j - from);
        }
      }
      FindUnique(text, pat, from + p);
    }
  }

  /** The first occurrence stays the first when text is appended. */
  lemma FindInPrefix(text: string, more: string, pat: string)
    requires Find(text, pat, 0) != -1
    ensures Find(text + more, pat, 0) == Find(text, pat, 0)
  {
    var p := Find(text, pat, 0);
    AtPrefix(text, more, pat, p);
    forall j: nat | j < p ensures !At(text + more, pat, j) {
      AtPrefix(text, more, pat, j);
    }
    FindUnique(text + more, pat, p);
  }

  /** The characters `str.isspace` holds of. */
  predicate IsSpace(c: char) {
    || '\t' <= c <= '\r'
    || '\U{1C}' <= c <= ' '
    || c == '\U{85}' || c == '\U{A0}' || c == '\U{1680}'
    || '\U{2000}' <= c <= '\U{200A}'
    || c == '\U{2028}' || c == '\U{2029}' || c == '\U{202F}' || c == '\U{205F}' || c == '\U{3000}'
  }

  predicate Blank(s: string) {
    forall c | c in s :: IsSpace(c)
  }

  function LStrip(s: string): string {
    if s != [] && IsSpace(s[0]) then LStrip(s[1..]) else s
  }

  function RStrip(s: string): string {
    if s != [] && IsSpace(s[|s| - 1]) then RStrip(s[..|s| - 1]) else s
  }

  /** `s.strip()` */
  function Strip(s: string): string {
    RStrip(LStrip(s))
  }

  /** How many characters are not white space. */
  function Ink(s: string): nat {
    if s == [] then 0 else (if IsSpace(s[0]) then 0 else 1) + Ink(s[1..])
  }

  lemma {:induction false} InkAdds(a: string, b: string)
    ensures Ink(a + b) == Ink(a) + Ink(b)
  {
    if a == [] {
      assert a + b == b;
    } else {
      assert (a + b)[1..] == a[1..] + b;
      InkAdds(a[1..], b);
    }
  }

  lemma {:induction false} InkZero(s: string)
    ensures Ink(s) == 0 <==> Blank(s)
  {
    if s == [] {
    } else {
      InkZero(s[1..]);
      assert forall c :: c in s <==> c == s[0] || c in s[1..];
    }
  }

  lemma {:induction false} LStripInk(s: string)
    ensures Ink(LStrip(s)) == Ink(s)
  {
    if s == [] || !IsSpace(s[0]) {
    } else {
      LStripInk(s[1..]);
    }
  }

  lemma {:induction false} RStripInk(s: string)
    ensures Ink(RStrip(s)) == Ink(s)
  {
    if s == [] || !IsSpace(s[|s| - 1]) {
    } else {
      RStripInk(s[..|s| - 1]);
      assert s == s[..|s| - 1] + [s[|s| - 1]];
      InkAdds(s[..|s| - 1], [s[|s| - 1]]);
    }
  }

  /** Stripping removes white space only. */
  lemma StripInk(s: string)
    ensures Ink(Strip(s)) == Ink(s)
  {
    LStripInk(s);
    RStripInk(LStrip(s));
  }

  lemma {:induction false} RStripDropsBlank(s: string, b: string)
    requires Blank(b)
    ensures RStrip(s + b) == RStrip(s)
  {
    if b == [] {
      assert s + b == s;
    } else {
      assert (s + b)[..|s + b| - 1] == s + b[..|b| - 1];
      assert b[|b| - 1] in b;
      RStripDropsBlank(s, b[..|b| - 1]);
    }
  }

  lemma {:induction false} LStripOfBlank(s: string)
    requires Blank(s)
    ensures LStrip(s) == ""
  {
    if s == [] {
    } else {
      assert s[0] in s;
      LStripOfBlank(s[1..]);
    }
  }

  lemma {:induction false} LStripAppend(s: string, b: string)
    requires !Blank(s)
    ensures LStrip(s + b) == LStrip(s) + b
  {
    if !IsSpace(s[0]) {
    } else {
      assert (s + b)[1..] == s[1..] + b;
      assert forall c | c in s :: c == s[0] || c in s[1..];
      LStripAppend(s[1..], b);
    }
  }

  /** Trailing white space does not matter to `strip`. */
  lemma StripDropsBlank(s: string, b: string)
    requires Blank(b)
    ensures Strip(s + b) == Strip(s)
  {
    if Blank(s) {
      LStripOfBlank(s + b);
      LStripOfBlank(s);
    } else {
      LStripAppend(s, b);
      RStripDropsBlank(LStrip(s), b);
    }
  }

  lemma StripTwice(s: string)
    ensures Strip(Strip(s)) == Strip(s)
  {
    var l := LStrip(s);
    LStripHead(s);
    RStripEnds(l);
  }

  lemma {:induction false} LStripHead(s: string)
    ensures LStrip(s) == "" || !IsSpace(LStrip(s)[0])
  {
    if s == [] || !IsSpace(s[0]) {
    } else {
      LStripHead(s[1..]);
    }
  }

  lemma {:induction false} RStripEnds(s: string)
    requires s == "" || !IsSpace(s[0])
    ensures RStrip(RStrip(s)) == RStrip(s) && LStrip(RStrip(s)) == RStrip(s)
  {
    if s == [] || !IsSpace(s[|s| - 1]) {
    } else {
      RStripEnds(s[..|s| - 1]);
    }
  }

  lemma {:induction false} LStripShrinks(s: string)
    ensures |LStrip(s)| <= |s| && (|LStrip(s)| == |s| ==> LStrip(s) == s)
  {
    if s == [] || !IsSpace(s[0]) {
    } else {
      LStripShrinks(s[1..]);
    }
  }

  lemma {:induction false} RStripShrinks(s: string)
    ensures |RStrip(s)| <= |s| && (|RStrip(s)| == |s| ==> RStrip(s) == s)
  {
    if s == [] || !IsSpace(s[|s| - 1]) {
    } else {
      RStripShrinks(s[..|s| - 1]);
    }
  }

  lemma StripShrinks(s: string)
    ensures |Strip(s)| <= |s| && (|Strip(s)| == |s| ==> Strip(s) == s)
  {
    LStripShrinks(s);
    RStripShrinks(LStrip(s));
  }

  lemma {:induction false} LStripRest(s: string) returns (n: nat)
    ensures n <= |s| && Blank(s[..n]) && LStrip(s) == s[n..]
  {
    if s == [] || !IsSpace(s[0]) {
      n := 0;
    } else {
      var m := LStripRest(s[1..]);
      n := m + 1;
      assert s[..n] == [s[0]] + s[1..][..m];
    }
  }

  lemma {:induction false} RStripRest(s: string) returns (n: nat)
    ensures n <= |s| && Blank(s[n..]) && RStrip(s) == s[..n] && (n == 0 || !IsSpace(s[n - 1]))
  {
    if s == [] || !IsSpace(s[|s| - 1]) {
      n := |s|;
    } else {
      n := RStripRest(s[..|s| - 1]);
      assert s[n..] == s[..|s| - 1][n..] + [s[|s| - 1]];
    }
  }

  lemma {:induction false} LStripDropsBlank(b: string, s: string)
    requires Blank(b)
    ensures LStrip(b + s) == LStrip(s)
  {
    if b == [] {
      assert b + s == s;
    } else {
      assert b[0] in b && (b + s)[1..] == b[1..] + s;
      LStripDropsBlank(b[1..], s);
    }
  }

  /** Text that begins and ends in ink is what stripping leaves of it between white space. */
  lemma StripBetween(before: string, s: string, after: string)
    requires Blank(before) && Blank(after) && s != "" && !IsSpace(s[0]) && !IsSpace(s[|s| - 1])
    ensures Strip(before + s + after) == s
  {
    StripDropsBlank(before + s, after);
    LStripDropsBlank(before, s);
  }

  /** `strip` takes white space from both ends, all of it, and nothing else. */
  lemma StripIsInside(s: string) returns (i: nat, j: nat)
    ensures i <= j <= |s| && Strip(s) == s[i..j] && Blank(s[..i]) && Blank(s[j..])
    ensures Strip(s) == "" || (!IsSpace(Strip(s)[0]) && !IsSpace(Strip(s)[|Strip(s)| - 1]))
  {
    i := LStripRest(s);
    var n := RStripRest(s[i..]);
    j := i + n;
    LStripHead(s);
    assert s[i..][..n] == s[i..j] && s[i..][n..] == s[j..];
  }

  // ---------------------------------------------------------------- decimal numbers

  predicate IsDigit(c: char) {
    '0' <= c <= '9'
  }

  function Digit(d: nat): char
    requires d < 10
  {
    '0' + d as char
  }

  /** `str(n)` */
  function Decimal(n: nat): (s: string)
    ensures |s| > 0 && forall i | 0 <= i < |s| :: IsDigit(s[i])
  {
    if n < 10 then [Digit(n)] else Decimal(n / 10) + [Digit(n % 10)]
  }

  /** `int(s)` of a string of ASCII digits. */
  function Value(s: string): nat
    requires forall i | 0 <= i < |s| :: IsDigit(s[i])
  {
    if s == [] then 0
    else
      assert IsDigit(s[|s| - 1]);
      Value(s[..|s| - 1]) * 10 + (s[|s| - 1] as int - '0' as int)
  }

  lemma {:induction false} ValueOfDecimal(n: nat)
    ensures Value(Decimal(n)) == n
  {
    var s := Decimal(n);
    if n >= 10 {
      ValueOfDecimal(n / 10);
      assert s[..|s| - 1] == Decimal(n / 10);
    } else {
      assert s[..0] == [];
    }
  }

  function Pow10(d: nat): nat {
    if d == 0 then 1 else 10 * Pow10(d - 1)
  }

  lemma {:induction false} DecimalLength(n: nat, d: nat)
    requires d > 0
    ensures n < Pow10(d) <==> |Decimal(n)| <= d
  {
    if n >= 10 {
      if d == 1 {
        assert Pow10(1) == 10 * Pow10(0);
      } else {
        DecimalLength(n / 10, d - 1);
        assert Pow10(d) == 10 * Pow10(d - 1);
      }
    } else {
      Pow10Positive(d - 1);
    }
  }

  lemma {:induction false} Pow10Positive(d: nat)
    ensures Pow10(d) >= 1
  {
    if d == 0 {
    } else {
      Pow10Positive(d - 1);
    }
  }
}
