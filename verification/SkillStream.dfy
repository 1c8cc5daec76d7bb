/** The skill-state block of app/services/coach/skill_parser.py: the streaming filter that hides it
    and the parser that cuts it out of the whole text. */
module SkillStream {
  import opened Strings

  const OPEN_TAG: string := "<skill_state>"
  const CLOSE_TAG: string := "</skill_state>"

  // ---------------------------------------------------------------- the offline definitions

  /** The text up to the first tag, or all of it. */
  function Cut(text: string, tag: string): string {
    var p := Find(text, tag, 0);
    if p == -1 then text else text[..p]
  }

  /** The last k characters could be the start of a tag. */
  predicate Tail(text: string, tag: string, k: nat) {
    k <= |text| && k <= |tag| && text[|text| - k..] == tag[..k]
  }

  function LongestTail(text: string, tag: string, k: nat): (h: nat)
    ensures h <= k && Tail(text, tag, h)
    ensures forall j: nat | h < j <= k :: !Tail(text, tag, j)
  {
    if k == 0 || Tail(text, tag, k) then k else LongestTail(text, tag, k - 1)
  }

  /** How many trailing characters must be held back. */
  function Held(text: string, tag: string): (h: nat)
    ensures Tail(text, tag, h)
    ensures forall j: nat | h < j :: !Tail(text, tag, j)
  {
    LongestTail(text, tag, |tag|)
  }

  /** What may be shown once `text` has arrived. */
  function Safe(text: string, tag: string): string {
    if Find(text, tag, 0) == -1 then text[..|text| - Held(text, tag)] else Cut(text, tag)
  }

  function Flatten(chunks: seq<string>): string {
    if chunks == [] then "" else Flatten(chunks[..|chunks| - 1]) + chunks[|chunks| - 1]
  }

  // ---------------------------------------------------------------- why the buffer suffices

  /** A tag that is not already in `text` starts no earlier than its held-back tail. */
  lemma TagStartsInTail(text: string, more: string, tag: string, p: nat)
    requires At(text + more, tag, p) && !At(text, tag, p)
    ensures p >= |text| - Held(text, tag)
  {
    if p < |text| {
      var k := |text| - p;
      if k >= |tag| {
        AtPrefix(text, more, tag, p);
      }
      assert (text + more)[p..p + |tag|][..k] == text[p..];
      assert Tail(text, tag, k);
    }
  }

  /** What is held back of `text`. */
  function Kept(text: string, tag: string): string {
    text[|text| - Held(text, tag)..]
  }

  /** Looking at the held-back tail and the new token is as good as looking at the whole text. */
  lemma StreamStep(text: string, token: string, tag: string)
    requires Find(text, tag, 0) == -1
    ensures var window := Kept(text, tag) + token;
            && (Find(text + token, tag, 0) == -1 <==> Find(window, tag, 0) == -1)
            && Safe(text + token, tag) == Safe(text, tag) + Safe(window, tag)
            && Kept(text + token, tag) == Kept(window, tag)
  {
    hide Find, Held;
    var from := |text| - Held(text, tag);
    var whole, window := text + token, Kept(text, tag) + token;
    assert whole[from..] == window;
    forall j: nat | At(whole, tag, j) ensures j >= from {
      TagStartsInTail(text, token, tag, j);
    }
    FindInSuffix(whole, from, tag);
    TailsAgree(text, token, tag);
    assert whole == text[..from] + window;
    var p := Find(window, tag, 0);
    if p != -1 {
      assert whole[..from + p] == text[..from] + window[..p];
    } else {
      assert whole[..|whole| - Held(whole, tag)] == text[..from] + window[..|window| - Held(window, tag)];
    }
  }

  lemma TailsAgree(text: string, token: string, tag: string)
    ensures Held(text + token, tag) == Held(Kept(text, tag) + token, tag)
  {
    hide Held;
    var whole, window := text + token, Kept(text, tag) + token;
    forall k: nat ensures Tail(whole, tag, k) <==> Tail(window, tag, k) {
      if k > |window| && Tail(whole, tag, k) {
        ShorterTail(text, token, tag, k);
      }
      if k <= |window| {
        assert whole[|whole| - k..] == window[|window| - k..];
      }
    }
  }

  /** A possible tag start that began before the token is one without it, too. */
  lemma ShorterTail(text: string, token: string, tag: string, k: nat)
    requires Tail(text + token, tag, k) && k >= |token|
    ensures Tail(text, tag, k - |token|)
  {
    var m, whole := k - |token|, text + token;
    assert whole[|whole| - k..][..m] == text[|text| - m..];
    assert tag[..k][..m] == tag[..m];
  }

  /** Once seen, the first tag stays the first. */
  lemma FirstTagStays(text: string, more: string, tag: string)
    requires Find(text, tag, 0) != -1
    ensures Find(text + more, tag, 0) == Find(text, tag, 0) && Cut(text + more, tag) == Cut(text, tag)
  {
    FindInPrefix(text, more, tag);
    var p := Find(text, tag, 0);
    assert (text + more)[..p] == text[..p];
  }

  /** Whatever arrives later, what was shown is a prefix of the text before the tag. */
  lemma ShownIsFinal(text: string, more: string, tag: string)
    ensures Safe(text, tag) <= Cut(text + more, tag)
  {
    if Find(text, tag, 0) != -1 {
      FirstTagStays(text, more, tag);
    } else {
      var q := Find(text + more, tag, 0);
      if q != -1 {
        TagStartsInTail(text, more, tag, q);
      }
    }
  }

  lemma WholeTail(text: string, tag: string)
    requires Tail(text, tag, |tag|)
    ensures At(text, tag, |text| - |tag|)
  {
    assert tag[..|tag|] == tag;
  }

  lemma HeldBelowTag(text: string, tag: string)
    requires Find(text, tag, 0) == -1
    ensures Held(text, tag) < |tag|
  {
    hide Find, Held;
    if Held(text, tag) == |tag| {
      WholeTail(text, tag);
    }
  }

  /** The rest of the tag completes a possible tag start. */
  lemma RestCompletes(text: string, tag: string, h: nat)
    requires Tail(text, tag, h)
    ensures At(text + tag[h..], tag, |text| - h) && (text + tag[h..])[..|text| - h] == text[..|text| - h]
  {
    assert (text + tag[h..])[|text| - h..] == tag[..h] + tag[h..] == tag;
  }

  /** Not one held-back character could be shown: some continuation makes it part of the tag. */
  lemma HeldIsNeeded(text: string, tag: string)
    requires Find(text, tag, 0) == -1
    ensures Cut(text + tag[Held(text, tag)..], tag) == Safe(text, tag)
  {
    hide Find, Held;
    var h := Held(text, tag);
    var whole, p := text + tag[h..], |text| - h;
    RestCompletes(text, tag, h);
    hide Tail;
    forall j: nat | j < p ensures !At(whole, tag, j) {
      if At(whole, tag, j) {
        TagStartsInTail(text, tag[h..], tag, j);
      }
    }
    FindUnique(whole, tag, p);
  }

  lemma NothingHeld(tag: string)
    requires |tag| > 0
    ensures Find("", tag, 0) == -1 && Safe("", tag) == "" && Kept("", tag) == ""
  {
  }

  // ---------------------------------------------------------------- the online filter

  class SkillStateStreamFilter {
    const tag: string
    var buffer: string
    var full: string
    var suppressed: bool
    ghost var emitted: string

    ghost predicate Valid()
      reads this
    {
      && emitted == Safe(full, tag)
      && suppressed == (Find(full, tag, 0) != -1)
      && buffer == (if suppressed then "" else Kept(full, tag))
    }

    constructor ()
      ensures Valid() && full == "" && emitted == "" && !suppressed && tag == OPEN_TAG
    {
      hide Find, Held, Safe, Kept;
      tag := OPEN_TAG;
      buffer, full, suppressed, emitted := "", "", false, "";
      new;
      NothingHeld(tag);
    }

    method Feed(token: string) returns (out: string)
      requires Valid()
      modifies this
      ensures Valid()
      ensures full == old(full) + token
      ensures emitted == old(emitted) + out
      ensures !suppressed ==> |buffer| < |tag| && emitted + buffer == full
    {
      hide Find, Held;
      ghost var before := full;
      full := full + token;
      if suppressed {
        FirstTagStays(before, token, tag);
        return "";
      }
      StreamStep(before, token, tag);
      buffer := buffer + token;
      var idx := Find(buffer, tag, 0);
      if idx != -1 {
        out := buffer[..idx];
        buffer, suppressed := "", true;
        emitted := emitted + out;
        return;
      }
      out, buffer := Divide(buffer);
      emitted := emitted + out;
      HeldBelowTag(full, tag);
    }

    /** Longest possible tag start first, the buffer is divided into what may go and what must wait. */
    method Divide(window: string) returns (safe: string, kept: string)
      requires Find(window, tag, 0) == -1
      ensures safe == Safe(window, tag) && kept == Kept(window, tag)
    {
      hide Find;
      var maxOverlap := if |window| < |tag| then |window| else |tag|;
      for k := maxOverlap + 1 downto 1
        invariant forall j: nat | k <= j <= maxOverlap :: !Tail(window, tag, j)
      {
        if window[|window| - k..] <= tag {
          assert Tail(window, tag, k) && Held(window, tag) == k;
          return window[..|window| - k], window[|window| - k..];
        }
      }
      assert Held(window, tag) == 0;
      return window, "";
    }

    method Flush() returns (out: string)
      requires Valid()
      modifies this
      ensures emitted == old(emitted) + out && full == old(full)
      ensures emitted == Cut(full, tag)
    {
      if suppressed {
        return "";
      }
      out := buffer;
      buffer := "";
      emitted := emitted + out;
    }
  }

  /** However the text is cut into chunks, the client sees exactly the text before the tag. */
  method Stream(chunks: seq<string>) returns (shown: string)
    ensures shown == Cut(Flatten(chunks), OPEN_TAG)
  {
    hide Find, Held, Safe, Kept, Cut;
    var filter := new SkillStateStreamFilter();
    shown := "";
    for i := 0 to |chunks|
      invariant fresh(filter) && filter.Valid()
      invariant filter.full == Flatten(chunks[..i]) && filter.emitted == shown
    {
      assert chunks[..i + 1][..i] == chunks[..i];
      var out := filter.Feed(chunks[i]);
      shown := shown + out;
    }
    assert chunks[..|chunks|] == chunks;
    var tail := filter.Flush();
    shown := shown + tail;
  }

  // ---------------------------------------------------------------- the parser

  function SkipSpace(text: string, i: nat): (j: nat)
    requires i <= |text|
    ensures i <= j <= |text| && Blank(text[i..j])
    ensures j == |text| || !IsSpace(text[j])
    decreases |text| - i
  {
    if i < |text| && IsSpace(text[i]) then
      var j := SkipSpace(text, i + 1);
      assert text[i..j] == [text[i]] + text[i + 1..j];
      j
    else i
  }

  /** End of the block whose open tag stands at p, or -1. White space after the tag is skipped
      greedily, one character of content is required, the first closing tag after it ends the block;
      only if there is none may the content be white space. */
  function BlockEnd(text: string, p: nat): (e: int)
    requires At(text, OPEN_TAG, p)
    ensures e == -1 || p + |OPEN_TAG| < e <= |text|
  {
    var start := p + |OPEN_TAG|;
    var w := SkipSpace(text, start);
    var c := Find(text, CLOSE_TAG, w + 1);
    if c != -1 then c + |CLOSE_TAG|
    else if w > start && At(text, CLOSE_TAG, w) then w + |CLOSE_TAG|
    else -1
  }

  /** Start of the leftmost block at or after `from`, or -1. */
  function Search(text: string, from: nat): (p: int)
    ensures p == -1 || (p >= from && At(text, OPEN_TAG, p) && BlockEnd(text, p) != -1)
    ensures p == -1 ==> forall j: nat | j >= from && At(text, OPEN_TAG, j) :: BlockEnd(text, j) == -1
    decreases |text| - from
  {
    var p := Find(text, OPEN_TAG, from);
    if p == -1 || BlockEnd(text, p) != -1 then p else Search(text, p + 1)
  }

  /** The text from `from` on without its blocks. */
  function Sub(text: string, from: nat): string
    requires from <= |text|
    decreases |text| - from
  {
    var p := Find(text, OPEN_TAG, from);
    if p == -1 then text[from..]
    else if BlockEnd(text, p) == -1 then text[from..p + 1] + Sub(text, p + 1)
    else text[from..p] + Sub(text, BlockEnd(text, p))
  }

  /** The cleaned text `parse_skill_state_block` returns. */
  function Cleaned(text: string): string {
    if Search(text, 0) == -1 then text else Strip(Sub(text, 0))
  }

  // ---------------------------------------------------------------- what the parser cuts out

  /** An open tag at p, a closing tag that ends at e, and at least one character between them. */
  predicate Block(text: string, p: nat, e: nat) {
    && p + |OPEN_TAG| + |CLOSE_TAG| < e <= |text|
    && At(text, OPEN_TAG, p) && At(text, CLOSE_TAG, e - |CLOSE_TAG|)
  }

  function Content(text: string, p: nat, e: nat): string
    requires Block(text, p, e)
  {
    text[p + |OPEN_TAG|..e - |CLOSE_TAG|]
  }

  /** A block whose closing tag stands right behind the leading white space holds nothing else. */
  lemma BlockShape(text: string, p: nat, f: nat)
    requires Block(text, p, f)
    ensures var w, k := SkipSpace(text, p + |OPEN_TAG|), f - |CLOSE_TAG|;
            w <= k && (Blank(Content(text, p, f)) <==> k == w)
  {
    var start, k := p + |OPEN_TAG|, f - |CLOSE_TAG|;
    var w := SkipSpace(text, start);
    AtChar(text, CLOSE_TAG, k, 0);
    if k < w {
      SpaceRun(text, start, w, k);
    } else if w < k {
      assert text[start..k][w - start] == text[w] && text[w] in text[start..k];
    }
  }

  lemma BlockEndIsBlock(text: string, p: nat)
    requires At(text, OPEN_TAG, p) && BlockEnd(text, p) != -1
    ensures Block(text, p, BlockEnd(text, p))
  {
    hide Find;
  }

  lemma BlockEndBounds(text: string, p: nat, f: nat)
    requires Block(text, p, f)
    ensures var e := BlockEnd(text, p);
            && e != -1 && Block(text, p, e)
            && (f < e ==> Blank(Content(text, p, f)))
            && (Blank(Content(text, p, e)) ==> e <= f && Blank(Content(text, p, f)))
  {
    hide Find, At, Blank;
    BlockShape(text, p, f);
    BlockEndIsBlock(text, p);
    BlockShape(text, p, BlockEnd(text, p));
  }

  /** Which block an open tag begins: the shortest that holds more than white space, or else the shortest
      there is. */
  lemma BlockEndIs(text: string, p: nat)
    requires At(text, OPEN_TAG, p)
    ensures var e := BlockEnd(text, p);
            && (e == -1 <==> forall f: nat :: !Block(text, p, f))
            && (e != -1 ==>
                  && Block(text, p, e)
                  && (forall f: nat | Block(text, p, f) && f < e :: Blank(Content(text, p, f)))
                  && (Blank(Content(text, p, e)) ==> forall f: nat | Block(text, p, f) :: e <= f && Blank(Content(text, p, f))))
  {
    if BlockEnd(text, p) != -1 {
      BlockEndIsBlock(text, p);
    }
    forall f: nat | Block(text, p, f) { BlockEndBounds(text, p, f); }
    hide *;
  }

  ghost predicate Starts(text: string, p: nat) {
    exists e: nat :: Block(text, p, e)
  }

  lemma StartsIff(text: string, p: nat)
    ensures Starts(text, p) <==> At(text, OPEN_TAG, p) && BlockEnd(text, p) != -1
  {
    hide BlockEnd;
    if At(text, OPEN_TAG, p) {
      BlockEndIs(text, p);
    }
  }

  /** The first place at or behind `from` where a block begins. */
  ghost predicate FirstStart(text: string, from: nat, p: nat) {
    from <= p && Starts(text, p) && forall q: nat | from <= q < p :: !Starts(text, q)
  }

  lemma {:induction false} NoStarts(text: string, from: nat)
    requires from <= |text| && forall q: nat | from <= q :: !Starts(text, q)
    ensures Sub(text, from) == text[from..]
    decreases |text| - from
  {
    hide BlockEnd, Starts, Find;
    var first := Find(text, OPEN_TAG, from);
    if first == -1 {
    } else {
      StartsIff(text, first);
      NoStarts(text, first + 1);
      assert text[from..first + 1] + text[first + 1..] == text[from..];
    }
  }

  /** Blocks are cut out one after the other, from left to right; what stands between them stays. */
  lemma {:induction false} SubIs(text: string, from: nat, p: nat)
    requires from <= |text| && FirstStart(text, from, p)
    ensures At(text, OPEN_TAG, p) && BlockEnd(text, p) != -1 && Sub(text, from) == text[from..p] + Sub(text, BlockEnd(text, p))
    decreases |text| - from
  {
    hide BlockEnd, Starts, Find, At;
    StartsIff(text, p);
    var first := Find(text, OPEN_TAG, from);
    StartsIff(text, first);
    if first == p {
    } else {
      SubIs(text, first + 1, p);
      assert text[from..first + 1] + text[first + 1..p] == text[from..p];
    }
  }

  /** The cleaned text: the text itself, white space and all, where it holds no block; otherwise what
      stands around its blocks, stripped. */
  lemma CleanedIs(text: string)
    ensures (forall q: nat :: !Starts(text, q)) ==> Cleaned(text) == text
    ensures forall p: nat | FirstStart(text, 0, p) ::
              At(text, OPEN_TAG, p) && BlockEnd(text, p) != -1 && Cleaned(text) == Strip(text[..p] + Sub(text, BlockEnd(text, p)))
  {
    hide BlockEnd, Starts, Sub, Strip;
    forall q: nat { StartsIff(text, q); }
    forall p: nat | FirstStart(text, 0, p)
      ensures Sub(text, 0) == text[..p] + Sub(text, BlockEnd(text, p))
    {
      SubIs(text, 0, p);
      assert text[0..p] == text[..p];
    }
  }

  /** The first block is closed and nothing but white space and further blocks follow it. */
  predicate BlockEndsText(text: string) {
    var p := Find(text, OPEN_TAG, 0);
    p != -1 && BlockEnd(text, p) != -1 && Blank(Sub(text, BlockEnd(text, p)))
  }

  /** The streamed and the parsed text agree up to outer white space exactly when there is no open
      tag, or the first block is closed and ends the text. */
  lemma ParseAgreesIff(text: string)
    ensures Strip(Cleaned(text)) == Strip(Cut(text, OPEN_TAG)) <==> Find(text, OPEN_TAG, 0) == -1 || BlockEndsText(text)
  {
    var p := Find(text, OPEN_TAG, 0);
    if p != -1 {
      StripInk(Cut(text, OPEN_TAG));
      if BlockEnd(text, p) != -1 {
        var rest := Sub(text, BlockEnd(text, p));
        assert text[0..p] == Cut(text, OPEN_TAG);
        assert Sub(text, 0) == Cut(text, OPEN_TAG) + rest;
        InkAdds(Cut(text, OPEN_TAG), rest);
        InkZero(rest);
        StripInk(Sub(text, 0));
        StripInk(Strip(Sub(text, 0)));
        if Blank(rest) {
          StripDropsBlank(Cut(text, OPEN_TAG), rest);
          StripTwice(Cut(text, OPEN_TAG));
        }
      } else {
        OpenTagSurvives(text, p);
        StripInk(Cleaned(text));
      }
    }
  }

  /** An unclosed first tag stays in the parsed text. */
  lemma OpenTagSurvives(text: string, p: nat)
    requires Find(text, OPEN_TAG, 0) == p && BlockEnd(text, p) == -1
    ensures Ink(Cleaned(text)) > Ink(Cut(text, OPEN_TAG))
  {
    hide Find, BlockEnd, Search;
    var kept := text[..p + 1];
    AtChar(text, OPEN_TAG, p, 0);
    assert kept == Cut(text, OPEN_TAG) + ['<'];
    InkAdds(Cut(text, OPEN_TAG), ['<']);
    assert Ink(['<']) == 1;
    if Search(text, 0) == -1 {
      assert text == kept + text[p + 1..];
      InkAdds(kept, text[p + 1..]);
    } else {
      assert Sub(text, 0) == text[0..p + 1] + Sub(text, p + 1);
      assert text[0..p + 1] == kept;
      InkAdds(kept, Sub(text, p + 1));
      StripInk(Sub(text, 0));
    }
  }

  /** The documented case: one closed, non-empty block at the end of the reply. */
  lemma ReplyThenBlock(text: string, p: nat, c: nat)
    requires Find(text, OPEN_TAG, 0) == p && Find(text, CLOSE_TAG, p + |OPEN_TAG|) == c
    requires p + |OPEN_TAG| < c && Blank(text[c + |CLOSE_TAG|..])
    ensures Strip(Cleaned(text)) == Strip(text[..p]) == Strip(Cut(text, OPEN_TAG))
  {
    var start, e := p + |OPEN_TAG|, c + |CLOSE_TAG|;
    var w := SkipSpace(text, start);
    if c < w {
      SpaceRun(text, start, w, c);
      AtChar(text, CLOSE_TAG, c, 0);
    }
    if w == c {
      NoSecondClose(text, c);
    }
    assert BlockEnd(text, p) == e;
    NoTagInSpace(text, e);
    ParseAgreesIff(text);
  }

  lemma SpaceRun(text: string, i: nat, j: nat, k: nat)
    requires i <= k < j <= |text| && Blank(text[i..j])
    ensures IsSpace(text[k])
  {
  }

  lemma NotInBlank(text: string, e: nat, j: nat)
    requires e <= j < |text| && Blank(text[e..])
    ensures text[j] != '<'
  {
    assert text[j] == text[e..][j - e] && text[e..][j - e] in text[e..];
  }

  lemma NoSecondClose(text: string, c: nat)
    requires At(text, CLOSE_TAG, c) && Blank(text[c + |CLOSE_TAG|..])
    ensures Find(text, CLOSE_TAG, c + 1) == -1
  {
    var j := Find(text, CLOSE_TAG, c + 1);
    if j != -1 {
      AtChar(text, CLOSE_TAG, j, 0);
      if j < c + |CLOSE_TAG| {
        AtChar(text, CLOSE_TAG, c, j - c);
      } else {
        NotInBlank(text, c + |CLOSE_TAG|, j);
      }
    }
  }

  lemma NoTagInSpace(text: string, e: nat)
    requires e <= |text| && Blank(text[e..])
    ensures Sub(text, e) == text[e..]
  {
    var q := Find(text, OPEN_TAG, e);
    if q != -1 {
      AtChar(text, OPEN_TAG, q, 0);
      NotInBlank(text, e, q);
    }
  }
}
