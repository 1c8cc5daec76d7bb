/** The wrapping and unwrapping of instructions of app/services/safety/moderation.py. */
module Guardrails {
  import opened Strings

  // The prompts are written in pieces: the verifier reads a literal character by character, and longer
  // ones are beyond it.

  const STYLE_PROMPT: string := "IMPORTANT: Avoid " + "apologies or " + "self-corrections " + "in your responses."

  const HEADING: string := "Key Rules:"
  const POLITE: string := "- Always be helpful, " + "polite, and professional"
  const NO_ADVICE: string := "- Do NOT provide " + "medical, legal, or " + "financial advice"
  const NO_EXPLICIT: string := "- Do NOT generate " + "sexually explicit " + "or NSFW content"
  const NO_HATE: string := "- Do NOT engage in " + "hate speech, violence, " + "or illegal activities"
  const DECLINE: string := "- Decline unsafe " + "requests gracefully " + "while staying in " + "character"
  const PERSONA: string := "- Maintain consistency " + "with your persona " + "at all times"
  const ALL_AGES: string := "- Ensure all content " + "is safe for all ages"

  const RULES: seq<string> := [HEADING, POLITE, NO_ADVICE, NO_EXPLICIT, NO_HATE, DECLINE, PERSONA, ALL_AGES]

  /** The lines with a newline between each two. */
  function Lines(lines: seq<string>): string
    requires lines != []
  {
    if |lines| == 1 then lines[0] else lines[0] + "\n" + Lines(lines[1..])
  }

  const MODERATION_PROMPT: string := Lines(RULES)

  /** `text.replace(pat, "")`: occurrences from left to right, not overlapping. */
  function Erase(text: string, pat: string): string
    requires pat != ""
  {
    if text == "" then ""
    else if pat <= text then Erase(text[|pat|..], pat)
    else [text[0]] + Erase(text[1..], pat)
  }

  function Wrap(x: string, style: string, rules: string): string {
    x + "\n" + style + "\n" + rules
  }

  function Unwrap(y: string, style: string, rules: string): string
    requires style != "" && rules != ""
  {
    Strip(Erase(Erase(y, style), rules))
  }

  function WithGuardrails(x: string): string {
    Wrap(x, STYLE_PROMPT, MODERATION_PROMPT)
  }

  function StripGuardrails(y: string): string {
    PromptsFit();
    Unwrap(y, STYLE_PROMPT, MODERATION_PROMPT)
  }

  // ---------------------------------------------------------------- what the two prompts look like

  /** No newline at either end, and never two in a row. */
  ghost predicate Tidy(s: string) {
    forall i | 0 <= i < |s| && s[i] == '\n' :: 0 < i < |s| - 1 && s[i + 1] != '\n'
  }

  ghost predicate Fit(style: string, rules: string) {
    style != "" && rules != "" && '\n' !in style && Tidy(rules) && !Has(rules, style)
    && !Blank(style) && !Blank(rules)
  }

  /** A line of fewer than n characters. */
  ghost predicate OneLine(l: string, n: nat) {
    0 < |l| < n && '\n' !in l
  }

  lemma {:induction false} LinesFit(style: string, lines: seq<string>)
    requires lines != [] && '\n' !in style
    requires forall l | l in lines :: OneLine(l, |style|)
    ensures Tidy(Lines(lines)) && Lines(lines) != "" && !Has(Lines(lines), style)
    ensures lines[0] <= Lines(lines)
  {
    var first, text := lines[0], Lines(lines);
    assert first in lines;
    if |lines| > 1 {
      var rest := Lines(lines[1..]);
      LinesFit(style, lines[1..]);
      assert text == first + "\n" + rest && text[|first| + 1..] == rest;
      forall i: nat ensures !At(text, style, i) {
        if i <= |first| < i + |style| {
          assert style[|first| - i] in style;
          if At(text, style, i) {
            AtChar(text, style, i, |first| - i);
          }
        } else if i > |first| {
          AtSuffix(text, |first| + 1, style, i - |first| - 1);
        }
      }
      forall i | 0 <= i < |first| ensures text[i] != '\n' {
        assert first[i] in first;
      }
      forall i | |first| < i < |text| ensures text[i] == rest[i - |first| - 1] {
      }
    } else {
      forall i | 0 <= i < |text| ensures text[i] != '\n' {
        assert text[i] in first;
      }
    }
  }

  lemma StyleIsOneLine()
    ensures OneLine(STYLE_PROMPT, 66) && |STYLE_PROMPT| == 65
  {
  }

  lemma RuleLines1()
    ensures OneLine(HEADING, 65) && OneLine(POLITE, 65)
  {
  }

  lemma RuleLines2()
    ensures OneLine(NO_ADVICE, 65) && OneLine(NO_EXPLICIT, 65)
  {
  }

  lemma RuleLines3()
    ensures OneLine(NO_HATE, 65) && OneLine(DECLINE, 65)
  {
  }

  lemma RuleLines4()
    ensures OneLine(PERSONA, 65) && OneLine(ALL_AGES, 65)
  {
  }

  lemma RulesAreLines()
    ensures forall l | l in RULES :: OneLine(l, 65)
  {
    hide OneLine;
    RuleLines1();
    RuleLines2();
    RuleLines3();
    RuleLines4();
  }

  lemma PromptsFit()
    ensures Fit(STYLE_PROMPT, MODERATION_PROMPT)
  {
    RulesAreLines();
    StyleIsOneLine();
    LinesFit(STYLE_PROMPT, RULES);
    assert STYLE_PROMPT[0] in STYLE_PROMPT;
    assert RULES[0][0] == MODERATION_PROMPT[0];
    assert MODERATION_PROMPT[0] in MODERATION_PROMPT;
  }

  // ---------------------------------------------------------------- what wrapping adds

  /** The instructions as they are, and behind them a newline, the style prompt, a newline and the rules,
      up to the end. */
  ghost predicate EndsInPrompts(y: string, x: string, style: string, rules: string) {
    && |y| == |x| + 1 + |style| + 1 + |rules|
    && y[..|x|] == x && y[|x|] == '\n'
    && At(y, style, |x| + 1)
    && y[|x| + 1 + |style|] == '\n'
    && At(y, rules, |x| + 1 + |style| + 1)
  }

  lemma WrapEnds(x: string, style: string, rules: string)
    ensures EndsInPrompts(Wrap(x, style, rules), x, style, rules)
  {
    var y := Wrap(x, style, rules);
    assert y[|x| + 1..|x| + 1 + |style|] == style;
    assert y[|x| + 1 + |style| + 1..] == rules;
  }

  /** What is stored ends in the safety prompts, whatever the instructions are. */
  lemma WrappedEndsInPrompts(x: string)
    ensures EndsInPrompts(WithGuardrails(x), x, STYLE_PROMPT, MODERATION_PROMPT)
  {
    var style, rules := STYLE_PROMPT, MODERATION_PROMPT;
    WrapEnds(x, style, rules);
    hide EndsInPrompts, Wrap;
  }

  /** The rules begin with a character the style prompt lacks, and no line of theirs begins as it does. */
  ghost predicate Unlike(style: string, rules: string) {
    style != "" && rules != "" && rules[0] !in style
    && forall i | 0 <= i < |rules| - 1 && rules[i] == '\n' :: rules[i + 1] != style[0]
  }

  lemma OneStyle(y: string, x: string, style: string, rules: string, i: nat)
    requires Fit(style, rules) && EndsInPrompts(y, x, style, rules) && !Has(x, style)
    ensures At(y, style, i) <==> i == |x| + 1
  {
    var first, second := |x|, |x| + 1 + |style|;
    assert y == x + y[|x|..] && y[second + 1..] == rules;
    if i + |style| <= first {
      AtPrefix(x, y[|x|..], style, i);
    } else if second < i {
      AtSuffix(y, second + 1, style, i - second - 1);
    } else if i != |x| + 1 {
      LacksNewline(y, style, i, if i <= first then first else second);
    }
  }

  lemma LacksNewline(y: string, pat: string, i: nat, k: nat)
    requires i <= k < i + |pat| && k < |y| && y[k] == '\n' && '\n' !in pat
    ensures !At(y, pat, i)
  {
    if At(y, pat, i) {
      AtChar(y, pat, i, k - i);
    }
  }

  lemma OneRules(y: string, x: string, style: string, rules: string, i: nat)
    requires Fit(style, rules) && Unlike(style, rules) && EndsInPrompts(y, x, style, rules) && !Has(x, rules)
    ensures At(y, rules, i) <==> i == |x| + 1 + |style| + 1
  {
    assert y == x + y[|x|..] && y[|x| + 1] == style[0];
    if i + |rules| <= |x| {
      AtPrefix(x, y[|x|..], rules, i);
    } else if i <= |x| {
      if At(y, rules, i) {
        AtChar(y, rules, i, |x| - i);
        AtChar(y, rules, i, |x| - i + 1);
      }
    } else if i <= |x| + |style| {
      assert y[i] == style[i - |x| - 1];
    }
  }

  lemma LinesStart(lines: seq<string>)
    requires lines != []
    ensures lines[0] <= Lines(lines)
  {
  }

  lemma {:induction false} LinesBegin(lines: seq<string>, c: char)
    requires lines != [] && forall l | l in lines :: '\n' !in l
    requires forall i | 0 < i < |lines| :: lines[i] != "" && lines[i][0] != c
    ensures var text := Lines(lines); forall i | 0 <= i < |text| - 1 && text[i] == '\n' :: text[i + 1] != c
  {
    var first, text := lines[0], Lines(lines);
    if |lines| == 1 {
      assert forall i | 0 <= i < |text| :: text[i] in first;
    } else {
      var rest := Lines(lines[1..]);
      LinesBegin(lines[1..], c);
      LinesStart(lines[1..]);
      assert text == first + "\n" + rest && text[|first|] == '\n';
      assert forall i | 0 <= i < |first| :: text[i] in first;
      forall i | |first| <= i < |text| - 1 && text[i] == '\n' ensures text[i + 1] != c {
        assert text[i + 1] == rest[i - |first|];
        assert i == |first| ==> text[i + 1] == lines[1][0];
        assert i > |first| ==> rest[i - |first| - 1] == '\n';
      }
    }
  }

  lemma RuleLinesBegin()
    ensures forall i | 0 < i < |RULES| :: RULES[i] != "" && RULES[i][0] == '-'
  {
  }

  lemma StyleLooks()
    ensures STYLE_PROMPT != "" && STYLE_PROMPT[0] == 'I' && 'K' !in STYLE_PROMPT
  {
  }

  lemma RulesHead()
    ensures MODERATION_PROMPT != "" && MODERATION_PROMPT[0] == 'K'
  {
    var rules := RULES;
    assert rules[0] == HEADING && HEADING[0] == 'K';
    hide Lines;
    LinesStart(rules);
  }

  lemma RulesBegin(lines: seq<string>, text: string)
    requires lines == RULES && text == Lines(lines)
    ensures forall i | 0 <= i < |text| - 1 && text[i] == '\n' :: text[i + 1] != 'I'
  {
    hide Lines;
    RulesAreLines();
    RuleLinesBegin();
    LinesBegin(lines, 'I');
  }

  lemma UnlikeFrom(style: string, rules: string)
    requires style != "" && style[0] == 'I' && 'K' !in style && rules != "" && rules[0] == 'K'
    requires forall i | 0 <= i < |rules| - 1 && rules[i] == '\n' :: rules[i + 1] != 'I'
    ensures Unlike(style, rules)
  {
  }

  lemma PromptsUnlike()
    ensures Unlike(STYLE_PROMPT, MODERATION_PROMPT)
  {
    hide Lines, Unlike;
    StyleLooks();
    RulesHead();
    var rules := MODERATION_PROMPT;
    RulesBegin(RULES, rules);
    UnlikeFrom(STYLE_PROMPT, rules);
  }

  // ---------------------------------------------------------------- erasing

  lemma {:induction false} EraseNothing(text: string, pat: string)
    requires pat != "" && !Has(text, pat)
    ensures Erase(text, pat) == text
  {
    if text == "" {
    } else {
      if pat <= text {
        assert At(text, pat, 0);
      }
      forall i: nat ensures !At(text[1..], pat, i) {
        AtSuffix(text, 1, pat, i);
      }
      EraseNothing(text[1..], pat);
    }
  }

  /** Every erased occurrence takes its ink away. */
  lemma {:induction false} EraseInk(text: string, pat: string)
    requires pat != "" && !Blank(pat)
    ensures Ink(Erase(text, pat)) <= Ink(text) && |Erase(text, pat)| <= |text|
    ensures Has(text, pat) ==> Ink(Erase(text, pat)) < Ink(text) && |Erase(text, pat)| < |text|
  {
    if text == "" {
    } else {
      if pat <= text {
        EraseInk(text[|pat|..], pat);
        assert text == pat + text[|pat|..];
        InkAdds(pat, text[|pat|..]);
        InkZero(pat);
      } else {
        EraseInk(text[1..], pat);
        if i: nat :| At(text, pat, i) {
          assert i > 0;
          AtSuffix(text, 1, pat, i - 1);
        }
      }
    }
  }

  lemma PrefixBefore(a: string, c: char, b: string, pat: string)
    requires c !in pat
    ensures pat <= a + [c] + b <==> pat <= a
  {
    var text := a + [c] + b;
    assert text[|a|] == c && text[..|a|] == a;
    assert |a| < |pat| ==> pat[|a|] in pat;
  }

  lemma EraseStep(text: string, pat: string)
    requires pat != "" && text != ""
    ensures pat <= text ==> Erase(text, pat) == Erase(text[|pat|..], pat)
    ensures !(pat <= text) ==> Erase(text, pat) == [text[0]] + Erase(text[1..], pat)
  {
  }

  /** A character the pattern lacks splits the work. */
  lemma {:induction false} EraseSplits(a: string, c: char, b: string, pat: string)
    requires pat != "" && c !in pat
    ensures Erase(a + [c] + b, pat) == Erase(a, pat) + [c] + Erase(b, pat)
  {
    hide Erase;
    var text := a + [c] + b;
    PrefixBefore(a, c, b, pat);
    EraseStep(text, pat);
    if a == "" {
      assert text == [c] + b && text[1..] == b;
      EraseEmpty(pat);
    } else {
      EraseStep(a, pat);
      var n := if pat <= a then |pat| else 1;
      var rest := a[n..];
      assert text[n..] == rest + [c] + b && text[0] == a[0];
      EraseSplits(rest, c, b, pat);
      assert [a[0]] + (Erase(rest, pat) + [c] + Erase(b, pat)) == ([a[0]] + Erase(rest, pat)) + [c] + Erase(b, pat);
    }
  }

  lemma EraseEmpty(pat: string)
    requires pat != ""
    ensures Erase("", pat) == ""
  {
  }

  /** An empty line before a tidy pattern keeps what stands before it out of the match. */
  lemma {:induction false} EraseTail(a: string, rules: string)
    requires rules != "" && Tidy(rules)
    ensures Erase(a + "\n\n" + rules, rules) == Erase(a, rules) + "\n\n"
  {
    var text := a + "\n\n" + rules;
    if a == "" {
      assert text == "\n\n" + rules && text[1..] == "\n" + rules && text[1..][1..] == rules;
      assert !(rules <= text) && !(rules <= text[1..]);
      assert rules[|rules|..] == "";
      assert Erase(rules, rules) == "";
    } else {
      assert text[|a|] == text[|a| + 1] == '\n';
      assert rules <= a ==> rules <= text;
      if rules <= text {
        assert |rules| <= |a|;
        assert rules <= a;
        assert text[|rules|..] == a[|rules|..] + "\n\n" + rules;
        EraseTail(a[|rules|..], rules);
      } else {
        assert text[1..] == a[1..] + "\n\n" + rules;
        EraseTail(a[1..], rules);
      }
    }
  }

  // ---------------------------------------------------------------- the round trip

  lemma EraseStyle(x: string, style: string, rules: string)
    requires Fit(style, rules)
    ensures Erase(Wrap(x, style, rules), style) == Erase(x, style) + "\n\n" + rules
  {
    hide Erase, Has, Tidy, Blank;
    var rest := style + ['\n'] + rules;
    assert Wrap(x, style, rules) == x + ['\n'] + rest;
    EraseSplits(x, '\n', rest, style);
    EraseSplits(style, '\n', rules, style);
    EraseItself(style);
    EraseNothing(rules, style);
    assert Erase(rest, style) == "\n" + rules;
  }

  lemma EraseItself(pat: string)
    requires pat != ""
    ensures Erase(pat, pat) == ""
  {
  }

  lemma UnwrapWrap(x: string, style: string, rules: string)
    requires Fit(style, rules)
    ensures Unwrap(Wrap(x, style, rules), style, rules) == Unwrap(x, style, rules)
  {
    hide Erase, Strip, Has;
    var e := Erase(x, style);
    EraseStyle(x, style, rules);
    EraseTail(e, rules);
    StripDropsBlank(Erase(e, rules), "\n\n");
  }

  lemma UnwrapIsStripIff(x: string, style: string, rules: string)
    requires Fit(style, rules)
    ensures Unwrap(x, style, rules) == Strip(x) <==> !Has(x, style) && !Has(x, rules)
  {
    var e := Erase(x, style);
    if !Has(x, style) {
      EraseNothing(x, style);
      if !Has(x, rules) {
        EraseNothing(x, rules);
      }
    }
    EraseInk(x, style);
    EraseInk(e, rules);
    StripInk(Erase(e, rules));
    StripInk(x);
  }

  /** Wrapping never changes what unwrapping shows, whatever the instructions contain. */
  lemma StripIgnoresWrap(x: string)
    ensures StripGuardrails(WithGuardrails(x)) == StripGuardrails(x)
  {
    PromptsFit();
    UnwrapWrap(x, STYLE_PROMPT, MODERATION_PROMPT);
  }

  /** The round trip gives back the stripped instructions exactly when they contain neither prompt. */
  lemma RoundTripIff(x: string)
    ensures StripGuardrails(WithGuardrails(x)) == Strip(x) <==> !Has(x, STYLE_PROMPT) && !Has(x, MODERATION_PROMPT)
  {
    PromptsFit();
    StripIgnoresWrap(x);
    UnwrapIsStripIff(x, STYLE_PROMPT, MODERATION_PROMPT);
  }

  // ---------------------------------------------------------------- reading and saving over and over

  /** What is stored after the instructions were saved and then n times read and saved again. */
  function Stored(x: string, n: nat): string {
    if n == 0 then WithGuardrails(x) else WithGuardrails(StripGuardrails(Stored(x, n - 1)))
  }

  /** n unwrappings of the bare text. */
  function Shown(x: string, n: nat): string {
    if n == 0 then x else StripGuardrails(Shown(x, n - 1))
  }

  /** Guardrails do not pile up: whatever x is, the stored text is always one wrapping of x with some
      unwrappings done to it. */
  lemma {:induction false} OneWrapping(x: string, n: nat)
    ensures Stored(x, n) == WithGuardrails(Shown(x, n))
  {
    hide WithGuardrails, StripGuardrails;
    if n == 0 {
    } else {
      OneWrapping(x, n - 1);
      StripIgnoresWrap(Shown(x, n - 1));
    }
  }

  /** After any number of saves what is stored is the text as it is shown, with both prompts behind it; it
      holds each of them once, there, exactly when the shown text does not hold it. */
  lemma StoredOnceIff(x: string, n: nat)
    ensures var y, shown := Stored(x, n), Shown(x, n);
            && EndsInPrompts(y, shown, STYLE_PROMPT, MODERATION_PROMPT)
            && ((forall i: nat :: At(y, STYLE_PROMPT, i) <==> i == |shown| + 1) <==> !Has(shown, STYLE_PROMPT))
            && ((forall i: nat :: At(y, MODERATION_PROMPT, i) <==> i == |shown| + 1 + |STYLE_PROMPT| + 1) <==>
                !Has(shown, MODERATION_PROMPT))
  {
    OneWrapping(x, n);
    WrappedEndsInPrompts(Shown(x, n));
    PromptsFit();
    PromptsUnlike();
    var y, shown, style, rules := Stored(x, n), Shown(x, n), STYLE_PROMPT, MODERATION_PROMPT;
    hide *;
    OnceIff(y, shown, style, rules);
  }

  lemma OnceIff(y: string, x: string, style: string, rules: string)
    requires Fit(style, rules) && Unlike(style, rules) && EndsInPrompts(y, x, style, rules)
    ensures (forall i: nat :: At(y, style, i) <==> i == |x| + 1) <==> !Has(x, style)
    ensures (forall i: nat :: At(y, rules, i) <==> i == |x| + 1 + |style| + 1) <==> !Has(x, rules)
  {
    assert y == x + y[|x|..];
    if !Has(x, style) {
      forall i: nat { OneStyle(y, x, style, rules, i); }
    } else {
      StaysBehind(y, x, style);
    }
    if !Has(x, rules) {
      forall i: nat { OneRules(y, x, style, rules, i); }
    } else {
      StaysBehind(y, x, rules);
    }
  }

  lemma StaysBehind(y: string, x: string, pat: string)
    requires x <= y && Has(x, pat)
    ensures exists i: nat :: i <= |x| && At(y, pat, i)
  {
    var i: nat :| At(x, pat, i);
    assert y == x + y[|x|..];
    AtPrefix(x, y[|x|..], pat, i);
  }

  lemma UnwrapShrinks(y: string, style: string, rules: string)
    requires Fit(style, rules)
    ensures Unwrap(y, style, rules) == y || |Unwrap(y, style, rules)| < |y|
  {
    var e := Erase(y, style);
    EraseInk(y, style);
    EraseInk(e, rules);
    StripShrinks(Erase(e, rules));
    if !Has(y, style) {
      EraseNothing(y, style);
      if !Has(y, rules) {
        EraseNothing(y, rules);
      }
    }
  }

  lemma {:induction false} ShownShrinks(x: string, n: nat)
    ensures (n > 0 && Shown(x, n) == Shown(x, n - 1)) || |Shown(x, n)| <= |x| - n
  {
    PromptsFit();
    hide Unwrap, Fit;
    if n == 0 {
    } else {
      UnwrapShrinks(Shown(x, n - 1), STYLE_PROMPT, MODERATION_PROMPT);
      ShownShrinks(x, n - 1);
    }
  }

  /** The cycle comes to rest: from some save on, what is stored no longer changes, and what is shown
      holds neither prompt. */
  lemma CyclesSettle(x: string, n: nat)
    requires n > |x|
    ensures Stored(x, n) == Stored(x, |x|)
    ensures !Has(Shown(x, n), STYLE_PROMPT) && !Has(Shown(x, n), MODERATION_PROMPT)
  {
    PromptsFit();
    hide StripGuardrails, WithGuardrails, Fit;
    ShownShrinks(x, n);
    SecondStripIdleIff(Shown(x, n - 1));
    if n <= |x| + 1 {
    } else {
      CyclesSettle(x, n - 1);
    }
    OneWrapping(x, n);
    OneWrapping(x, n - 1);
  }

  /** Unwrapping twice is unwrapping once exactly when the first unwrapping left neither prompt. */
  lemma SecondStripIdleIff(y: string)
    ensures var shown := StripGuardrails(y);
            StripGuardrails(shown) == shown <==> !Has(shown, STYLE_PROMPT) && !Has(shown, MODERATION_PROMPT)
  {
    PromptsFit();
    var shown := StripGuardrails(y);
    StripTwice(Erase(Erase(y, STYLE_PROMPT), MODERATION_PROMPT));
    UnwrapIsStripIff(shown, STYLE_PROMPT, MODERATION_PROMPT);
  }

  // ---------------------------------------------------------------- texts on which once is enough

  predicate LineEnds(rest: string) {
    rest == "" || rest[0] == '\n'
  }

  /** Every occurrence that erasing takes out of the text begins or ends a line. `starts` says whether a
      line begins where the text does. */
  predicate OnItsLine(starts: bool, text: string, pat: string)
    requires pat != ""
    decreases |text|
  {
    if text == "" then true
    else if pat <= text then (starts || LineEnds(text[|pat|..])) && OnItsLine(false, text[|pat|..], pat)
    else OnItsLine(text[0] == '\n', text[1..], pat)
  }

  predicate EmptyLine(rest: string) {
    rest == "" || rest == "\n" || (|rest| >= 2 && rest[0] == rest[1] == '\n')
  }

  /** Every occurrence that erasing takes out follows or precedes an empty line, or an end of the text.
      `gap` counts the newlines before, two being enough. */
  predicate SetApart(gap: nat, text: string, pat: string)
    requires pat != ""
    decreases |text|
  {
    if text == "" then true
    else if pat <= text then (gap >= 2 || EmptyLine(text[|pat|..])) && SetApart(0, text[|pat|..], pat)
    else SetApart(if text[0] == '\n' then gap + 1 else 0, text[1..], pat)
  }

  lemma LineEndStays(rest: string, pat: string)
    requires pat != "" && '\n' !in pat && LineEnds(rest)
    ensures LineEnds(Erase(rest, pat))
  {
    assert pat[0] in pat;
  }

  lemma HeadAndTail(q: string, text: string)
    requires q != "" && text != "" && q[0] == text[0] && q[1..] <= text[1..]
    ensures q <= text && At(text, q, 0)
  {
    assert text == [text[0]] + text[1..] && q == [q[0]] + q[1..];
  }

  /** The start of what is left inside a line stood in the text. */
  lemma {:induction false} LineSurvives(text: string, pat: string, q: string)
    requires pat != "" && '\n' !in pat && '\n' !in q
    requires OnItsLine(false, text, pat) && q <= Erase(text, pat)
    ensures q <= text
    decreases |text|
  {
    if text == "" || q == "" {
    } else if pat <= text {
      assert q[0] in q;
      LineEndStays(text[|pat|..], pat);
    } else {
      assert q[0] in q;
      assert q[1..] <= Erase(text[1..], pat);
      LineSurvives(text[1..], pat, q[1..]);
      HeadAndTail(q, text);
    }
  }

  lemma {:induction false} NoneIsMade(starts: bool, text: string, pat: string)
    requires pat != "" && '\n' !in pat && OnItsLine(starts, text, pat)
    ensures !Has(Erase(text, pat), pat)
    decreases |text|
  {
    if text == "" {
    } else if pat <= text {
      NoneIsMade(false, text[|pat|..], pat);
    } else {
      var e := Erase(text, pat);
      NoneIsMade(text[0] == '\n', text[1..], pat);
      assert e[1..] == Erase(text[1..], pat);
      forall i: nat ensures !At(e, pat, i) {
        if i > 0 {
          AtSuffix(e, 1, pat, i - 1);
        } else if pat <= e {
          assert pat[0] in pat && pat[1..] <= e[1..] && pat[0] == text[0];
          LineSurvives(text[1..], pat, pat[1..]);
          HeadAndTail(pat, text);
        }
      }
    }
  }

  /** Could stand after `gap` newlines inside a tidy pattern, at its end. */
  predicate TidyTail(gap: nat, q: string) {
    && (forall i | 0 <= i < |q| && q[i] == '\n' :: i < |q| - 1 && q[i + 1] != '\n')
    && (gap > 0 && q != "" ==> q[0] != '\n')
  }

  lemma EmptyLineStays(rest: string, pat: string)
    requires pat != "" && Tidy(pat) && EmptyLine(rest)
    ensures EmptyLine(Erase(rest, pat))
  {
    assert pat[0] != '\n';
    if |rest| > 1 {
      assert !(pat <= rest) && !(pat <= rest[1..]);
    }
  }

  lemma {:induction false} ParagraphSurvives(gap: nat, text: string, pat: string, q: string)
    requires pat != "" && Tidy(pat) && TidyTail(gap, q) && gap < 2
    requires SetApart(gap, text, pat) && q <= Erase(text, pat)
    ensures q <= text
    decreases |text|
  {
    if text == "" || q == "" {
    } else if pat <= text {
      assert q[0] == '\n' ==> |q| > 1 && q[1] != '\n';
      EmptyLineStays(text[|pat|..], pat);
    } else {
      assert q[0] == text[0] && q[1..] <= Erase(text[1..], pat);
      ParagraphSurvives(if text[0] == '\n' then gap + 1 else 0, text[1..], pat, q[1..]);
      HeadAndTail(q, text);
    }
  }

  /** Erasing such occurrences makes no new one, of the pattern or of another tidy one. */
  lemma {:induction false} NoOtherIsMade(gap: nat, text: string, pat: string, other: string)
    requires pat != "" && Tidy(pat) && other != "" && Tidy(other) && SetApart(gap, text, pat)
    requires other == pat || !Has(text, other)
    ensures !Has(Erase(text, pat), other)
    decreases |text|
  {
    if text == "" {
    } else if pat <= text {
      forall i: nat | other != pat ensures !At(text[|pat|..], other, i) {
        AtSuffix(text, |pat|, other, i);
      }
      NoOtherIsMade(0, text[|pat|..], pat, other);
    } else {
      var e := Erase(text, pat);
      forall i: nat | other != pat ensures !At(text[1..], other, i) {
        AtSuffix(text, 1, other, i);
      }
      NoOtherIsMade(if text[0] == '\n' then gap + 1 else 0, text[1..], pat, other);
      assert e[1..] == Erase(text[1..], pat);
      forall i: nat ensures !At(e, other, i) {
        if i > 0 {
          AtSuffix(e, 1, other, i - 1);
        } else if other <= e {
          assert other[0] != '\n' && other[0] == text[0] && other[1..] <= e[1..];
          ParagraphSurvives(0, text[1..], pat, other[1..]);
          HeadAndTail(other, text);
        }
      }
    }
  }

  lemma {:induction false} LStripDrops(s: string) returns (k: nat)
    ensures k <= |s| && LStrip(s) == s[k..]
  {
    k := 0;
    if s == "" || !IsSpace(s[0]) {
    } else {
      k := LStripDrops(s[1..]);
      k := k + 1;
    }
  }

  lemma {:induction false} RStripDrops(s: string) returns (k: nat)
    ensures k <= |s| && RStrip(s) == s[..k]
  {
    k := |s|;
    if s == "" || !IsSpace(s[|s| - 1]) {
    } else {
      k := RStripDrops(s[..|s| - 1]);
    }
  }

  lemma StripMakesNone(s: string, pat: string)
    requires !Has(s, pat)
    ensures !Has(Strip(s), pat)
  {
    var k := LStripDrops(s);
    var l := s[k..];
    var n := RStripDrops(l);
    forall i: nat ensures !At(l[..n], pat, i) {
      AtSuffix(s, k, pat, i);
      if i + |pat| <= n {
        assert l == l[..n] + l[n..];
        AtPrefix(l[..n], l[n..], pat, i);
      }
    }
  }

  lemma UnwrapTwice(y: string, style: string, rules: string)
    requires Fit(style, rules) && OnItsLine(true, y, style) && SetApart(2, Erase(y, style), rules)
    ensures Unwrap(Unwrap(y, style, rules), style, rules) == Unwrap(y, style, rules)
  {
    var e := Erase(y, style);
    NoneIsMade(true, y, style);
    StyleIsTidy(style);
    NoOtherIsMade(2, e, rules, style);
    NoOtherIsMade(2, e, rules, rules);
    var shown := Strip(Erase(e, rules));
    StripMakesNone(Erase(e, rules), style);
    StripMakesNone(Erase(e, rules), rules);
    UnwrapIsStripIff(shown, style, rules);
    StripTwice(Erase(e, rules));
  }

  lemma StyleIsTidy(style: string)
    requires '\n' !in style
    ensures Tidy(style)
  {
    forall i | 0 <= i < |style| ensures style[i] != '\n' {
      assert style[i] in style;
    }
  }

  /** Unwrapping is idempotent on every text whose style prompts each begin or end a line, and whose rules
      each stand beside an empty line or an end of the text. */
  lemma OnceIsEnough(y: string)
    requires OnItsLine(true, y, STYLE_PROMPT)
    requires SetApart(2, Erase(y, STYLE_PROMPT), MODERATION_PROMPT)
    ensures StripGuardrails(StripGuardrails(y)) == StripGuardrails(y)
  {
    hide Unwrap, Fit, OnItsLine, SetApart, Erase;
    PromptsFit();
    UnwrapTwice(y, STYLE_PROMPT, MODERATION_PROMPT);
  }

  /** The prompt would be read across the place where u and v meet. */
  predicate Spliced(u: string, v: string, pat: string) {
    exists k | 0 < k < |pat| :: k <= |u| && |pat| - k <= |v| && u[|u| - k..] == pat[..k] && v[..|pat| - k] == pat[k..]
  }

  lemma SliceAcross(u: string, v: string, i: nat, j: nat)
    requires i <= |u| <= j <= |u| + |v|
    ensures (u + v)[i..j] == u[i..] + v[..j - |u|]
  {
  }

  lemma AcrossIsSpliced(u: string, v: string, pat: string, i: nat)
    requires At(u + v, pat, i) && i < |u| < i + |pat|
    ensures Spliced(u, v, pat)
  {
    var k := |u| - i;
    SliceAcross(u, v, i, i + |pat|);
    assert pat[..k] == u[|u| - k..] && pat[k..] == v[..|pat| - k];
  }

  lemma SplicedStands(u: string, v: string, pat: string)
    requires Spliced(u, v, pat)
    ensures Has(u + v, pat)
  {
    var k :| 0 < k < |pat| && k <= |u| && |pat| - k <= |v| && u[|u| - k..] == pat[..k] && v[..|pat| - k] == pat[k..];
    var i := |u| - k;
    assert i + |pat| <= |u + v|;
    SliceAcross(u, v, i, i + |pat|);
    assert (u + v)[i..i + |pat|] == pat[..k] + pat[k..] == pat;
    assert At(u + v, pat, i);
  }

  lemma MeetsIffSpliced(u: string, v: string, pat: string)
    requires pat != "" && !Has(u, pat) && !Has(v, pat)
    ensures Has(u + v, pat) <==> Spliced(u, v, pat)
  {
    hide Spliced;
    if i: nat :| At(u + v, pat, i) {
      if i + |pat| <= |u| {
        AtPrefix(u, v, pat, i);
      } else if i >= |u| {
        assert (u + v)[|u|..] == v;
        AtSuffix(u + v, |u|, pat, i - |u|);
      } else {
        AcrossIsSpliced(u, v, pat, i);
      }
    }
    if Spliced(u, v, pat) {
      SplicedStands(u, v, pat);
    }
  }

  lemma {:induction false} EraseFirst(u: string, pat: string, v: string)
    requires pat != "" && !Has(v, pat) && forall j: nat | j < |u| :: !At(u + pat + v, pat, j)
    ensures Erase(u + pat + v, pat) == u + v
  {
    var s := u + pat + v;
    if u == "" {
      assert s[|pat|..] == v && u + v == v;
      EraseNothing(v, pat);
    } else {
      assert s[1..] == u[1..] + pat + v;
      assert !At(s, pat, 0);
      forall j: nat | j < |u[1..]| ensures !At(s[1..], pat, j) {
        AtSuffix(s, 1, pat, j);
      }
      EraseFirst(u[1..], pat, v);
      assert u + v == [u[0]] + (u[1..] + v);
    }
  }

  lemma {:induction false} LStripKeepsAll(s: string, pat: string)
    requires Has(s, pat) && pat != "" && !IsSpace(pat[0])
    ensures Has(LStrip(s), pat)
  {
    var i: nat :| At(s, pat, i);
    if s == "" || !IsSpace(s[0]) {
    } else {
      AtChar(s, pat, i, 0);
      AtSuffix(s, 1, pat, i - 1);
      LStripKeepsAll(s[1..], pat);
    }
  }

  lemma {:induction false} RStripKeepsAll(s: string, pat: string)
    requires Has(s, pat) && pat != "" && !IsSpace(pat[|pat| - 1])
    ensures Has(RStrip(s), pat)
  {
    var i: nat :| At(s, pat, i);
    if s == "" || !IsSpace(s[|s| - 1]) {
    } else {
      var n := |s| - 1;
      AtChar(s, pat, i, |pat| - 1);
      assert s == s[..n] + s[n..];
      AtPrefix(s[..n], s[n..], pat, i);
      RStripKeepsAll(s[..n], pat);
    }
  }

  /** The exact condition for a text with one style prompt and no rules: once is enough exactly when the
      prompt is not spliced around it. */
  lemma OnceIsEnoughIff(u: string, v: string, style: string, rules: string)
    requires Fit(style, rules) && !IsSpace(style[0]) && !IsSpace(style[|style| - 1])
    requires Find(u + style + v, style, 0) == |u| && !Has(v, style) && !Has(u + v, rules)
    ensures var y := u + style + v;
            Unwrap(Unwrap(y, style, rules), style, rules) == Unwrap(y, style, rules) <==> !Spliced(u, v, style)
  {
    hide Spliced, Find;
    var s := u + style + v;
    EraseFirst(u, style, v);
    EraseNothing(u + v, rules);
    forall i: nat ensures !At(u, style, i) {
      if i + |style| <= |u| {
        assert s == u + (style + v);
        AtPrefix(u, style + v, style, i);
      }
    }
    MeetsIffSpliced(u, v, style);
    StripMakesNone(u + v, rules);
    if Has(u + v, style) {
      LStripKeepsAll(u + v, style);
      RStripKeepsAll(LStrip(u + v), style);
    } else {
      StripMakesNone(u + v, style);
    }
    UnwrapIsStripIff(Strip(u + v), style, rules);
    StripTwice(u + v);
  }

  // ---------------------------------------------------------------- exactly when once is enough

  /** What erasing leaves, cut at the places where something was taken out. */
  function Pieces(text: string, pat: string): (pieces: seq<string>)
    requires pat != ""
    ensures pieces != []
    decreases |text|
  {
    if text == "" then [""]
    else if pat <= text then [""] + Pieces(text[|pat|..], pat)
    else
      var rest := Pieces(text[1..], pat);
      [[text[0]] + rest[0]] + rest[1..]
  }

  function Joined(pieces: seq<string>): string {
    if pieces == [] then "" else pieces[0] + Joined(pieces[1..])
  }

  lemma {:induction false} PiecesErase(text: string, pat: string)
    requires pat != ""
    ensures Joined(Pieces(text, pat)) == Erase(text, pat)
    decreases |text|
  {
    if text == "" {
      assert [""][1..] == [];
    } else if pat <= text {
      PiecesErase(text[|pat|..], pat);
      assert Pieces(text, pat)[1..] == Pieces(text[|pat|..], pat);
    } else {
      var rest := Pieces(text[1..], pat);
      PiecesErase(text[1..], pat);
      assert Pieces(text, pat)[1..] == rest[1..];
      assert [text[0]] + rest[0] + Joined(rest[1..]) == [text[0]] + (rest[0] + Joined(rest[1..]));
    }
  }

  /** A prompt stands in one of the pieces, or is spliced around the places between them. */
  ghost predicate Rejoins(pieces: seq<string>, pat: string)
    requires pieces != []
  {
    || Has(pieces[0], pat)
    || (|pieces| > 1 && (Spliced(pieces[0], Joined(pieces[1..]), pat) || Rejoins(pieces[1..], pat)))
  }

  lemma HasAcrossIff(u: string, v: string, pat: string)
    requires pat != ""
    ensures Has(u + v, pat) <==> Has(u, pat) || Has(v, pat) || Spliced(u, v, pat)
  {
    hide Spliced;
    if i: nat :| At(u, pat, i) {
      AtPrefix(u, v, pat, i);
    } else if i: nat :| At(v, pat, i) {
      assert (u + v)[|u|..] == v;
      AtSuffix(u + v, |u|, pat, i);
    } else {
      MeetsIffSpliced(u, v, pat);
    }
  }

  lemma {:induction false} RejoinsIff(pieces: seq<string>, pat: string)
    requires pieces != [] && pat != ""
    ensures Has(Joined(pieces), pat) <==> Rejoins(pieces, pat)
  {
    hide Has, Spliced;
    if |pieces| == 1 {
      assert pieces[1..] == [] && Joined(pieces) == pieces[0] + "" == pieces[0];
    } else {
      RejoinsIff(pieces[1..], pat);
      HasAcrossIff(pieces[0], Joined(pieces[1..]), pat);
    }
  }

  /** The pieces left by erasing a pattern do not hold it, so only splices can bring it back. */
  lemma {:induction false} PiecesHaveNone(text: string, pat: string)
    requires pat != ""
    ensures forall k | 0 <= k < |Pieces(text, pat)| :: !Has(Pieces(text, pat)[k], pat)
    ensures Pieces(text, pat)[0] <= text
    decreases |text|
  {
    if text == "" {
    } else if pat <= text {
      PiecesHaveNone(text[|pat|..], pat);
    } else {
      var rest := Pieces(text[1..], pat);
      PiecesHaveNone(text[1..], pat);
      var first := [text[0]] + rest[0];
      assert first[1..] == rest[0] && first <= text;
      forall i: nat ensures !At(first, pat, i) {
        if i == 0 {
          assert pat <= first ==> pat <= text;
        } else {
          AtSuffix(first, 1, pat, i - 1);
        }
      }
    }
  }

  predicate InkAtEnds(pat: string) {
    pat != "" && !IsSpace(pat[0]) && !IsSpace(pat[|pat| - 1])
  }

  lemma StripHasIff(s: string, pat: string)
    requires InkAtEnds(pat)
    ensures Has(Strip(s), pat) <==> Has(s, pat)
  {
    if Has(s, pat) {
      LStripKeepsAll(s, pat);
      RStripKeepsAll(LStrip(s), pat);
    } else {
      StripMakesNone(s, pat);
    }
  }

  /** For every text: a second unwrapping changes nothing exactly when neither prompt stands in, or is
      spliced around, the pieces that taking out the style prompts and then the rules leaves. */
  lemma UnwrapTwiceIff(y: string, style: string, rules: string)
    requires Fit(style, rules) && InkAtEnds(style) && InkAtEnds(rules)
    ensures var pieces := Pieces(Erase(y, style), rules);
            Unwrap(Unwrap(y, style, rules), style, rules) == Unwrap(y, style, rules) <==>
            !Rejoins(pieces, style) && !Rejoins(pieces, rules)
  {
    hide Has, Rejoins, Pieces, Joined, Erase;
    var e := Erase(y, style);
    var left := Erase(e, rules);
    PiecesErase(e, rules);
    RejoinsIff(Pieces(e, rules), style);
    RejoinsIff(Pieces(e, rules), rules);
    StripHasIff(left, style);
    StripHasIff(left, rules);
    UnwrapIsStripIff(Strip(left), style, rules);
    StripTwice(left);
  }

  /** Any number of style prompts and no rules: exactly when none is spliced around the places of those
      taken out. */
  lemma ManyStylesIff(y: string, style: string, rules: string)
    requires Fit(style, rules) && InkAtEnds(style) && !Has(Erase(y, style), rules)
    ensures Unwrap(Unwrap(y, style, rules), style, rules) == Unwrap(y, style, rules) <==> !Rejoins(Pieces(y, style), style)
  {
    var e := Erase(y, style);
    EraseNothing(e, rules);
    hide Rejoins, Pieces, Joined, Erase;
    PiecesErase(y, style);
    RejoinsIff(Pieces(y, style), style);
    StripHasIff(e, style);
    StripMakesNone(e, rules);
    UnwrapIsStripIff(Strip(e), style, rules);
    StripTwice(e);
  }

  lemma {:induction false} LinesEnd(lines: seq<string>)
    requires lines != [] && forall i | 0 <= i < |lines| :: lines[i] != ""
    ensures var text, last := Lines(lines), lines[|lines| - 1];
            text != "" && text[|text| - 1] == last[|last| - 1]
  {
    if |lines| == 1 {
    } else {
      var rest := lines[1..];
      LinesEnd(rest);
      assert rest[|rest| - 1] == lines[|lines| - 1];
      assert Lines(lines) == (lines[0] + "\n") + Lines(rest);
    }
  }

  lemma PromptsInkAtEnds()
    ensures InkAtEnds(STYLE_PROMPT) && InkAtEnds(MODERATION_PROMPT)
  {
    LinesEnd(RULES);
    hide Lines;
    assert HEADING <= MODERATION_PROMPT by {
      PromptsStart();
    }
  }

  lemma PromptsStart()
    ensures HEADING <= MODERATION_PROMPT
  {
  }

  lemma OnceIsEnoughForIff(y: string)
    ensures var pieces := Pieces(Erase(y, STYLE_PROMPT), MODERATION_PROMPT);
            StripGuardrails(StripGuardrails(y)) == StripGuardrails(y) <==>
            !Rejoins(pieces, STYLE_PROMPT) && !Rejoins(pieces, MODERATION_PROMPT)
  {
    hide Unwrap, Fit, Rejoins, Pieces, Erase, InkAtEnds, Lines;
    PromptsFit();
    PromptsInkAtEnds();
    UnwrapTwiceIff(y, STYLE_PROMPT, MODERATION_PROMPT);
  }

  /** It can leave one: a prompt spliced into itself comes back whole. */
  lemma SplicedPromptSurvives(style: string, rules: string)
    requires Fit(style, rules) && Strip(style) == style && !Has(style, rules)
    requires |style| > 1 && style[0] != style[1]
    ensures var y := style[..1] + style + style[1..];
            Unwrap(y, style, rules) == style && Unwrap(style, style, rules) == ""
  {
    hide Fit, Has, Strip;
    var y, tail := style[..1] + style + style[1..], style[1..];
    assert style != "" && rules != "" && Strip("") == "" by { EmptyFits(style, rules); }
    EraseSpliced(style, tail);
    EraseNothing(style, rules);
    EraseItself(style);
    EraseEmpty(rules);
  }

  lemma EmptyFits(style: string, rules: string)
    requires Fit(style, rules)
    ensures style != "" && rules != "" && Strip("") == ""
  {
  }

  lemma EraseSpliced(style: string, tail: string)
    requires |style| > 1 && style[0] != style[1] && tail == style[1..]
    ensures Erase(style[..1] + style + tail, style) == style
  {
    hide Erase;
    var y := style[..1] + style + tail;
    assert y[1] == style[0] && y[0] == style[0];
    assert y[1..] == style + tail && y[1..][|style|..] == tail;
    EraseStep(y, style);
    EraseStep(y[1..], style);
    EraseNothing(tail, style);
    assert [style[0]] + tail == style;
  }

  lemma NotInOneLine(style: string, rules: string, k: nat)
    requires '\n' !in style && k < |rules| && rules[k] == '\n'
    ensures !Has(style, rules)
  {
  }

  lemma StyleStripped()
    ensures Strip(STYLE_PROMPT) == STYLE_PROMPT && |STYLE_PROMPT| > 1 && STYLE_PROMPT[0] != STYLE_PROMPT[1]
  {
  }

  lemma RulesBreakLine()
    ensures |MODERATION_PROMPT| > 10 && MODERATION_PROMPT[10] == '\n'
  {
  }

  /** So unwrapping what was unwrapped can change it: not idempotent on every text. */
  lemma StripNotIdempotent() returns (y: string)
    ensures StripGuardrails(y) == STYLE_PROMPT && StripGuardrails(StripGuardrails(y)) == ""
  {
    hide Strip, Unwrap, Lines, Has, Fit;
    PromptsFit();
    RulesBreakLine();
    StyleStripped();
    StyleIsOneLine();
    NotInOneLine(STYLE_PROMPT, MODERATION_PROMPT, 10);
    SplicedPromptSurvives(STYLE_PROMPT, MODERATION_PROMPT);
    y := STYLE_PROMPT[..1] + STYLE_PROMPT + STYLE_PROMPT[1..];
  }
}
