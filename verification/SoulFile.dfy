/** The Soul File page of app/routes/soul_file.py: shape validation and the version-hash handshake. */
module SoulFile {
  import opened JsonValues
  import opened Options
  import opened Strings

  const ID := "id"
  const HEADING := "heading"
  const BODY := "body"
  const EDITABLE := "editable"
  const MAX_SECTIONS: nat := 8

  /** The column as the driver hands it over: NULL, text that parses or not, or a decoded value. */
  datatype Stored = Missing | Text(parsed: Option<Json>) | Decoded(j: Json)

  // ---------------------------------------------------------------- the pure helpers

  function Dicts(items: seq<Json>): seq<Blob> {
    if items == [] then []
    else (if items[0].Obj? then [items[0].fields] else []) + Dicts(items[1..])
  }

  /** `_coerce_sections_list` */
  function Coerced(raw: Stored): seq<Blob> {
    match raw
    case Missing => []
    case Text(parsed) => if parsed.Some? && parsed.value.Arr? then Dicts(parsed.value.items) else []
    case Decoded(j) => if j.Arr? then Dicts(j.items) else []
  }

  /** A lowercase snake_case slug of 2 to 64 characters, as the contract asks for. */
  predicate Slug(s: string) {
    && 2 <= |s| <= 64 && 'a' <= s[0] <= 'z'
    && forall i | 0 <= i < |s| :: 'a' <= s[i] <= 'z' || '0' <= s[i] <= '9' || s[i] == '_'
  }

  /** What the pattern matches: its `$` also stands before a final newline. */
  predicate Matches(s: string) {
    Slug(s) || (|s| > 0 && s[|s| - 1] == '\n' && Slug(s[..|s| - 1]))
  }

  /** The contract's slugs are the matched ids that do not end in a newline. */
  lemma MatchesIffSlug(s: string)
    ensures Matches(s) && (s == "" || s[|s| - 1] != '\n') <==> Slug(s)
    ensures Slug(s) ==> Matches(s + "\n") && !Slug(s + "\n")
  {
  }

  function Section(id: string, heading: string, body: string, editable: bool): Blob {
    map[ID := Str(id), HEADING := Str(heading), BODY := Str(body), EDITABLE := Bool(editable)]
  }

  lemma SectionFields(id: string, heading: string, body: string, editable: bool)
    ensures var s := Section(id, heading, body, editable);
            && Get(s, ID) == Str(id) && Get(s, HEADING) == Str(heading)
            && Get(s, BODY) == Str(body) && Get(s, EDITABLE) == Bool(editable)
  {
  }

  const FALLBACK_ID: string := "core_personality"
  const FALLBACK_HEADING: string := "Core personality"

  function Fallback(flat: string): Blob {
    Section(FALLBACK_ID, FALLBACK_HEADING, flat, true)
  }

  /** Of a list the objects count, in their order. */
  lemma {:induction false} DictsAppend(items: seq<Json>, more: seq<Json>)
    ensures Dicts(items + more) == Dicts(items) + Dicts(more)
    ensures forall j: Json :: Dicts([j]) == if j.Obj? then [j.fields] else []
  {
    if items == [] {
      assert items + more == more;
    } else {
      assert (items + more)[1..] == items[1..] + more;
      DictsAppend(items[1..], more);
    }
    forall j: Json ensures Dicts([j]) == if j.Obj? then [j.fields] else [] {
      assert [j][1..] == [];
    }
  }

  datatype ShapeError = NotAList | TooMany | NotAnObject(index: nat) | BadId(index: nat) | Duplicate(id: string) | EmptyBody(id: string)

  datatype Checked<T> = Ok(value: T) | Bad(error: ShapeError)

  /** One entry, after the ids in `seen`. `title` is Python's title-casing of an id's words. */
  function CheckOne(j: Json, index: nat, seen: set<string>, title: string -> string): Checked<Blob> {
    if !j.Obj? then Bad(NotAnObject(index))
    else
      var id, body := Get(j.fields, ID), Get(j.fields, BODY);
      if !(id.Str? && Matches(id.s)) then Bad(BadId(index))
      else if id.s in seen then Bad(Duplicate(id.s))
      else if !(body.Str? && Strip(body.s) != "") then Bad(EmptyBody(id.s))
      else
        var h, e := Get(j.fields, HEADING), Get(j.fields, EDITABLE);
        var heading := if h.Str? && Strip(h.s) != "" then h.s else title(id.s);
        Ok(Section(id.s, Strip(heading), body.s, if e.Bool? then e.b else true))
  }

  function IdOf(b: Blob): string {
    if Get(b, ID).Str? then Get(b, ID).s else ""
  }

  function Ids(sections: seq<Blob>): set<string> {
    set i | 0 <= i < |sections| :: IdOf(sections[i])
  }

  function CheckAll(items: seq<Json>, title: string -> string): (r: Checked<seq<Blob>>)
    ensures r.Ok? ==> |r.value| == |items|
  {
    if items == [] then Ok([])
    else
      var n := |items| - 1;
      match CheckAll(items[..n], title)
      case Bad(e) => Bad(e)
      case Ok(before) =>
        match CheckOne(items[n], n, Ids(before), title)
        case Bad(e) => Bad(e)
        case Ok(s) => Ok(before + [s])
  }

  /** `_validate_sections_shape` */
  function Validated(sections: Json, title: string -> string): Checked<seq<Blob>> {
    if !sections.Arr? then Bad(NotAList)
    else if |sections.items| > MAX_SECTIONS then Bad(TooMany)
    else CheckAll(sections.items, title)
  }

  method Validate(sections: Json, title: string -> string) returns (r: Checked<seq<Blob>>)
    ensures r == Validated(sections, title)
  {
    if !sections.Arr? {
      return Bad(NotAList);
    }
    var items := sections.items;
    if |items| > MAX_SECTIONS {
      return Bad(TooMany);
    }
    var seen: set<string> := {};
    var normalised: seq<Blob> := [];
    for i := 0 to |items|
      invariant CheckAll(items[..i], title) == Ok(normalised) && seen == Ids(normalised)
    {
      assert items[..i + 1][..i] == items[..i];
      var one := CheckOne(items[i], i, seen, title);
      if one.Bad? {
        FirstBadStays(items, i + 1, title);
        return Bad(one.error);
      }
      CheckedId(items[i], i, seen, title);
      IdsAppend(normalised, one.value);
      seen := seen + {Get(items[i].fields, ID).s};
      normalised := normalised + [one.value];
    }
    assert items[..|items|] == items;
    return Ok(normalised);
  }

  lemma {:induction false} FirstBadStays(items: seq<Json>, i: nat, title: string -> string)
    requires i <= |items| && CheckAll(items[..i], title).Bad?
    ensures CheckAll(items, title) == CheckAll(items[..i], title)
    decreases |items| - i
  {
    if i < |items| {
      assert items[..i + 1][..i] == items[..i];
      FirstBadStays(items, i + 1, title);
    } else {
      assert items[..i] == items;
    }
  }

  lemma IdsAppend(sections: seq<Blob>, s: Blob)
    ensures Ids(sections + [s]) == Ids(sections) + {IdOf(s)}
  {
    var more := sections + [s];
    assert more[|sections|] == s;
    assert forall i | 0 <= i < |sections| :: more[i] == sections[i];
  }

  lemma CheckedId(j: Json, index: nat, seen: set<string>, title: string -> string)
    requires CheckOne(j, index, seen, title).Ok?
    ensures j.Obj? && Get(j.fields, ID) == Str(IdOf(CheckOne(j, index, seen, title).value))
    ensures IdOf(CheckOne(j, index, seen, title).value) !in seen
  {
  }

  // ---------------------------------------------------------------- what validation gives

  function Objs(sections: seq<Blob>): (r: seq<Json>)
    ensures |r| == |sections| && forall i | 0 <= i < |r| :: r[i] == Obj(sections[i])
  {
    seq(|sections|, i requires 0 <= i < |sections| => Obj(sections[i]))
  }

  /** Exactly the four fields, a matched id, a body that is not blank, a heading without surrounding white
      space, empty only where the id has no title. */
  predicate Normal(s: Blob, title: string -> string) {
    && Get(s, ID).Str? && Get(s, HEADING).Str? && Get(s, BODY).Str? && Get(s, EDITABLE).Bool?
    && s == Section(Get(s, ID).s, Get(s, HEADING).s, Get(s, BODY).s, Get(s, EDITABLE).b)
    && Matches(Get(s, ID).s) && Strip(Get(s, BODY).s) != ""
    && Strip(Get(s, HEADING).s) == Get(s, HEADING).s
    && (Get(s, HEADING).s == "" ==> Strip(title(Get(s, ID).s)) == "")
  }

  predicate WellFormed(sections: seq<Blob>, title: string -> string) {
    && |sections| <= MAX_SECTIONS
    && (forall i | 0 <= i < |sections| :: Normal(sections[i], title))
    && (forall i, j | 0 <= i < j < |sections| :: IdOf(sections[i]) != IdOf(sections[j]))
  }

  lemma CheckOneNormal(j: Json, index: nat, seen: set<string>, title: string -> string)
    requires CheckOne(j, index, seen, title).Ok?
    ensures Normal(CheckOne(j, index, seen, title).value, title)
  {
    hide Matches;
    var id, body, h, e := Get(j.fields, ID), Get(j.fields, BODY), Get(j.fields, HEADING), Get(j.fields, EDITABLE);
    var heading := if h.Str? && Strip(h.s) != "" then h.s else title(id.s);
    SectionFields(id.s, Strip(heading), body.s, if e.Bool? then e.b else true);
    StripTwice(heading);
  }

  lemma CheckNormal(s: Blob, index: nat, seen: set<string>, title: string -> string)
    requires Normal(s, title) && IdOf(s) !in seen
    ensures CheckOne(Obj(s), index, seen, title) == Ok(s)
  {
  }

  lemma {:induction false} CheckAllGives(items: seq<Json>, title: string -> string)
    requires CheckAll(items, title).Ok?
    ensures var r := CheckAll(items, title).value;
            && (forall i | 0 <= i < |r| :: Normal(r[i], title))
            && (forall i, j | 0 <= i < j < |r| :: IdOf(r[i]) != IdOf(r[j]))
            && (forall i | 0 <= i < |r| :: items[i].Obj? && Get(items[i].fields, ID) == Str(IdOf(r[i])))
  {
    hide Normal, CheckOne, IdOf;
    if items == [] {
    } else {
      var n := |items| - 1;
      CheckAllGives(items[..n], title);
      var before := CheckAll(items[..n], title).value;
      CheckedId(items[n], n, Ids(before), title);
      CheckOneNormal(items[n], n, Ids(before), title);
    }
  }

  /** Accepted lists keep their order and ids, have at most eight sections, distinct ids, no blank body. */
  lemma ValidatedIsWellFormed(sections: Json, title: string -> string)
    requires Validated(sections, title).Ok?
    ensures var r := Validated(sections, title).value;
            && WellFormed(r, title)
            && sections.Arr? && |r| == |sections.items|
            && forall i | 0 <= i < |r| :: sections.items[i].Obj? && Get(sections.items[i].fields, ID) == Str(IdOf(r[i]))
  {
    hide Normal, IdOf;
    CheckAllGives(sections.items, title);
  }

  lemma {:induction false} CheckAllKeeps(sections: seq<Blob>, title: string -> string)
    requires forall i | 0 <= i < |sections| :: Normal(sections[i], title)
    requires forall i, j | 0 <= i < j < |sections| :: IdOf(sections[i]) != IdOf(sections[j])
    ensures CheckAll(Objs(sections), title) == Ok(sections)
  {
    hide Normal, CheckOne, IdOf;
    if sections == [] {
    } else {
      var n := |sections| - 1;
      CheckAllKeeps(sections[..n], title);
      assert Objs(sections)[..n] == Objs(sections[..n]);
      CheckNormal(sections[n], n, Ids(sections[..n]), title);
      assert sections == sections[..n] + [sections[n]];
    }
  }

  /** The lists validation leaves as they are, are exactly the well-formed ones; so it is idempotent. */
  lemma FixedIffWellFormed(sections: seq<Blob>, title: string -> string)
    ensures Validated(Arr(Objs(sections)), title) == Ok(sections) <==> WellFormed(sections, title)
  {
    hide Normal, IdOf, CheckAll;
    if WellFormed(sections, title) {
      CheckAllKeeps(sections, title);
    }
    if Validated(Arr(Objs(sections)), title).Ok? {
      ValidatedIsWellFormed(Arr(Objs(sections)), title);
    }
  }

  lemma ValidationIdempotent(sections: Json, title: string -> string)
    requires Validated(sections, title).Ok?
    ensures Validated(Arr(Objs(Validated(sections, title).value)), title) == Validated(sections, title)
  {
    ValidatedIsWellFormed(sections, title);
    FixedIffWellFormed(Validated(sections, title).value, title);
  }

  // ---------------------------------------------------------------- what is accepted, and as what

  /** An object with a matched id and a body that is not blank. */
  predicate InShape(j: Json) {
    && j.Obj?
    && Get(j.fields, ID).Str? && Matches(Get(j.fields, ID).s)
    && Get(j.fields, BODY).Str? && Strip(Get(j.fields, BODY).s) != ""
  }

  predicate AllInShape(items: seq<Json>) {
    && (forall i | 0 <= i < |items| :: InShape(items[i]))
    && (forall i, j | 0 <= i < j < |items| :: Get(items[i].fields, ID) != Get(items[j].fields, ID))
  }

  /** The section `s` says what the entry says: the same id and body; its heading without surrounding white
      space, or the title of the id where it gives none; and whether it is editable, which it is unless it
      says otherwise. It has no other field. */
  predicate Says(s: Blob, entry: Blob, title: string -> string) {
    && s.Keys == {"id", "heading", "body", "editable"}
    && s["id"] == Get(entry, "id") && s["body"] == Get(entry, "body")
    && Get(entry, "id").Str?
    && s["heading"] == Str(Strip(
         if Get(entry, "heading").Str? && Strip(Get(entry, "heading").s) != "" then Get(entry, "heading").s
         else title(Get(entry, "id").s)))
    && s["editable"] == (if Get(entry, "editable").Bool? then Get(entry, "editable") else Bool(true))
  }

  lemma CheckOneSays(j: Json, index: nat, seen: set<string>, title: string -> string)
    ensures CheckOne(j, index, seen, title).Ok? <==> InShape(j) && Get(j.fields, ID).s !in seen
    ensures CheckOne(j, index, seen, title).Ok? ==> Says(CheckOne(j, index, seen, title).value, j.fields, title)
  {
    hide Matches, Strip;
  }

  lemma SaysId(s: Blob, entry: Blob, title: string -> string)
    requires Says(s, entry, title)
    ensures Str(IdOf(s)) == Get(entry, ID)
  {
  }

  lemma {:induction false} CheckAllSays(items: seq<Json>, title: string -> string)
    ensures CheckAll(items, title).Ok? <==> AllInShape(items)
    ensures CheckAll(items, title).Ok? ==>
              forall i | 0 <= i < |items| :: Says(CheckAll(items, title).value[i], items[i].fields, title)
  {
    hide CheckOne, Says, Matches, Strip, IdOf;
    if items == [] {
    } else {
      var n := |items| - 1;
      CheckAllSays(items[..n], title);
      assert forall i | 0 <= i < n :: items[..n][i] == items[i];
      if CheckAll(items[..n], title).Ok? {
        var before := CheckAll(items[..n], title).value;
        CheckOneSays(items[n], n, Ids(before), title);
        forall i | 0 <= i < n ensures Str(IdOf(before[i])) == Get(items[i].fields, ID) {
          SaysId(before[i], items[i].fields, title);
        }
        LastInShape(items, before);
      }
    }
  }

  lemma LastInShape(items: seq<Json>, before: seq<Blob>)
    requires |items| == |before| + 1 && AllInShape(items[..|before|])
    requires forall i | 0 <= i < |before| :: Str(IdOf(before[i])) == Get(items[i].fields, ID)
    ensures AllInShape(items) <==> InShape(items[|before|]) && Get(items[|before|].fields, ID).s !in Ids(before)
  {
    hide IdOf, Matches, Strip;
    var n := |before|;
    assert forall i | 0 <= i < n :: items[..n][i] == items[i];
  }

  /** What is accepted: a list of at most eight entries in shape whose ids differ. Section by section the
      result says what the entry says. */
  lemma AcceptedIff(sections: Json, title: string -> string)
    ensures Validated(sections, title).Ok? <==> sections.Arr? && |sections.items| <= 8 && AllInShape(sections.items)
    ensures Validated(sections, title).Ok? ==>
              && |Validated(sections, title).value| == |sections.items|
              && forall i | 0 <= i < |sections.items| :: Says(Validated(sections, title).value[i], sections.items[i].fields, title)
  {
    if sections.Arr? {
      CheckAllSays(sections.items, title);
    }
  }

  lemma IdsOf(items: seq<Json>, title: string -> string)
    requires AllInShape(items) && CheckAll(items, title).Ok?
    ensures forall id :: id in Ids(CheckAll(items, title).value) <==>
              exists k | 0 <= k < |items| :: Get(items[k].fields, ID) == Str(id)
  {
    hide Says, Matches, Strip, IdOf;
    var r := CheckAll(items, title).value;
    CheckAllSays(items, title);
    forall i | 0 <= i < |items| ensures Str(IdOf(r[i])) == Get(items[i].fields, ID) {
      SaysId(r[i], items[i].fields, title);
    }
    forall id ensures id in Ids(r) <==> exists k | 0 <= k < |items| :: Get(items[k].fields, ID) == Str(id) {
      if k :| 0 <= k < |items| && Get(items[k].fields, ID) == Str(id) {
        assert IdOf(r[k]) == id;
      }
    }
  }

  /** What is refused is refused for its first entry that is out of shape or repeats an id. */
  lemma FirstErrorIs(items: seq<Json>, i: nat, title: string -> string)
    requires i < |items| <= 8 && AllInShape(items[..i]) && !AllInShape(items[..i + 1])
    ensures Validated(Arr(items), title) == Bad(
              if !items[i].Obj? then NotAnObject(i)
              else
                var id := Get(items[i].fields, ID);
                if !(id.Str? && Matches(id.s)) then BadId(i)
                else if exists k | 0 <= k < i :: Get(items[..i][k].fields, ID) == id then Duplicate(id.s)
                else EmptyBody(id.s))
  {
    hide Matches, Strip;
    CheckAllSays(items[..i], title);
    CheckAllSays(items[..i + 1], title);
    IdsOf(items[..i], title);
    assert items[..i + 1][..i] == items[..i];
    FirstBadStays(items, i + 1, title);
  }

  // ---------------------------------------------------------------- GET and PUT

  datatype Bot = Bot(flat: string, stored: Stored)

  datatype View = View(sections: seq<Blob>, sha: string, fallback: bool)

  datatype Reply =
    | Saved(view: View)
    | NoSha
    | BadShape(error: ShapeError)
    | Stale(current: seq<Blob>, sha: string)

  function Shown(bot: Bot): (sections: seq<Blob>)
    ensures sections != []
  {
    if Coerced(bot.stored) == [] then [Fallback(bot.flat)] else Coerced(bot.stored)
  }

  function Getting(bot: Bot, digest: seq<Blob> -> string): View {
    View(Shown(bot), digest(Shown(bot)), Coerced(bot.stored) == [])
  }

  function Putting(bot: Bot, expected: Json, sections: Json, title: string -> string, digest: seq<Blob> -> string): (Bot, Reply) {
    if !(expected.Str? && Strip(expected.s) != "") then (bot, NoSha)
    else
      match Validated(sections, title)
      case Bad(e) => (bot, BadShape(e))
      case Ok(checked) =>
        if Strip(expected.s) != digest(Shown(bot)) then (bot, Stale(Shown(bot), digest(Shown(bot))))
        else (bot.(stored := Text(Some(Arr(Objs(checked))))), Saved(View(checked, digest(checked), false)))
  }

  /** What a page shows: the objects of the stored list, or, where the column is empty, no list, unparsable
      or without an object, one editable section that holds the flat text. */
  lemma ShownIs(bot: Bot)
    ensures var items := match bot.stored
                         case Missing => []
                         case Text(parsed) => if parsed.Some? && parsed.value.Arr? then parsed.value.items else []
                         case Decoded(j) => if j.Arr? then j.items else [];
            if exists j | j in items :: j.Obj? then Shown(bot) == Dicts(items)
            else Shown(bot) == [map["id" := Str("core_personality"), "heading" := Str("Core personality"),
                                    "body" := Str(bot.flat), "editable" := Bool(true)]]
  {
    var raw := match bot.stored
               case Missing => []
               case Text(parsed) => if parsed.Some? && parsed.value.Arr? then parsed.value.items else []
               case Decoded(j) => if j.Arr? then j.items else [];
    NoDicts(raw);
  }

  lemma {:induction false} NoDicts(items: seq<Json>)
    ensures Dicts(items) == [] <==> forall j | j in items :: !j.Obj?
  {
    if items == [] {
    } else {
      NoDicts(items[1..]);
      assert forall j :: j in items <==> j == items[0] || j in items[1..];
    }
  }

  class Page {
    var flat: string
    var stored: Stored

    function Snapshot(): Bot
      reads this
    {
      Bot(flat, stored)
    }

    constructor (flat: string, stored: Stored)
      ensures Snapshot() == Bot(flat, stored)
    {
      this.flat, this.stored := flat, stored;
    }

    method GetSoulFile(digest: seq<Blob> -> string) returns (view: View)
      ensures view == Getting(Snapshot(), digest)
    {
      var sections := Coerced(stored);
      var fallback := false;
      if sections == [] {
        sections := [Fallback(flat)];
        fallback := true;
      }
      return View(sections, digest(sections), fallback);
    }

    method PutSoulFile(expected: Json, sections: Json, title: string -> string, digest: seq<Blob> -> string)
      returns (reply: Reply)
      modifies this
      ensures (Snapshot(), reply) == Putting(old(Snapshot()), expected, sections, title, digest)
      ensures reply.NoSha? <==> !(expected.Str? && Strip(expected.s) != "")
      ensures reply.BadShape? <==> !reply.NoSha? && Validated(sections, title).Bad?
      ensures !reply.NoSha? && !reply.BadShape? ==>
                (reply.Stale? <==> Strip(expected.s) != digest(Shown(old(Snapshot()))))
      ensures flat == old(flat) && (!reply.Saved? ==> stored == old(stored))
      ensures reply.Saved? ==> Coerced(stored) == Validated(sections, title).value == reply.view.sections
    {
      if !(expected.Str? && Strip(expected.s) != "") {
        return NoSha;
      }
      var checked := Validate(sections, title);
      if checked.Bad? {
        return BadShape(checked.error);
      }
      var current := Coerced(stored);
      if current == [] {
        current := [Fallback(flat)];
      }
      var currentSha := digest(current);
      if Strip(expected.s) != currentSha {
        return Stale(current, currentSha);
      }
      stored := Text(Some(Arr(Objs(checked.value))));
      DictsOfObjs(checked.value);
      return Saved(View(checked.value, digest(checked.value), false));
    }
  }

  // ---------------------------------------------------------------- the handshake

  /** sha256 of the canonical encoding: no collisions, and hexadecimal text that stripping leaves alone. */
  ghost predicate Sha(digest: seq<Blob> -> string) {
    && (forall a, b :: digest(a) == digest(b) ==> a == b)
    && (forall a :: Strip(digest(a)) == digest(a) && digest(a) != "")
  }

  lemma {:induction false} DictsOfObjs(sections: seq<Blob>)
    ensures Dicts(Objs(sections)) == sections
  {
    if sections == [] {
    } else {
      assert Objs(sections)[1..] == Objs(sections[1..]);
      DictsOfObjs(sections[1..]);
    }
  }

  /** After a PUT that was saved, GET shows what was saved under the returned hash exactly when the list
      is not empty: an empty list is shown as the fallback section, under another hash. */
  lemma GetAfterPutIff(bot: Bot, expected: Json, sections: Json, title: string -> string, digest: seq<Blob> -> string)
    requires Sha(digest) && Putting(bot, expected, sections, title, digest).1.Saved?
    ensures var (after, reply) := Putting(bot, expected, sections, title, digest);
            Getting(after, digest) == reply.view <==> reply.view.sections != []
    ensures var (after, reply) := Putting(bot, expected, sections, title, digest);
            reply.view.sections == [] ==> Getting(after, digest).sha != reply.view.sha
  {
    hide Validated;
    DictsOfObjs(Putting(bot, expected, sections, title, digest).1.view.sections);
  }

  /** A PUT that carries the hash some state of the bot was shown under, is saved exactly when the bot
      now shows the same and the sections are in shape; otherwise nothing changes. This holds for any two
      states, whatever happened between the two requests. */
  lemma SavedIffUnchangedSince(was: Bot, bot: Bot, sections: Json, title: string -> string, digest: seq<Blob> -> string)
    requires Sha(digest)
    ensures var (after, reply) := Putting(bot, Str(Getting(was, digest).sha), sections, title, digest);
            && (reply.Saved? <==> Validated(sections, title).Ok? && Shown(bot) == Shown(was))
            && (!reply.Saved? ==> after == bot)
            && (Shown(bot) != Shown(was) && Validated(sections, title).Ok? ==>
                reply == Stale(Shown(bot), Getting(bot, digest).sha))
  {
  }

  /** So the hash a PUT returned works for the next PUT exactly when the saved list was not empty. */
  lemma ReturnedHashWorksIff(bot: Bot, expected: Json, sections: Json, next: Json, title: string -> string,
                             digest: seq<Blob> -> string)
    requires Sha(digest) && Putting(bot, expected, sections, title, digest).1.Saved?
    requires Validated(next, title).Ok?
    ensures var (after, reply) := Putting(bot, expected, sections, title, digest);
            Putting(after, Str(reply.view.sha), next, title, digest).1.Saved? <==> reply.view.sections != []
  {
    hide Validated;
    var (after, reply) := Putting(bot, expected, sections, title, digest);
    GetAfterPutIff(bot, expected, sections, title, digest);
  }

  datatype Request = Request(expected: Json, sections: Json)

  function PutAll(bot: Bot, rs: seq<Request>, title: string -> string, digest: seq<Blob> -> string): Bot
    decreases |rs|
  {
    if rs == [] then bot
    else PutAll(Putting(bot, rs[0].expected, rs[0].sections, title, digest).0, rs[1..], title, digest)
  }

  /** Any number of PUTs with the hash of a state that is no longer shown change nothing: of all the
      editors that read one version, only the first to change it is saved. */
  lemma {:induction false} OutdatedPutsChangeNothing(was: Bot, bot: Bot, rs: seq<Request>, title: string -> string,
                                                     digest: seq<Blob> -> string)
    requires Sha(digest) && Shown(bot) != Shown(was)
    requires forall r | r in rs :: r.expected == Str(Getting(was, digest).sha)
    ensures PutAll(bot, rs, title, digest) == bot
    decreases |rs|
  {
    hide Putting, Shown, Sha;
    if rs == [] {
    } else {
      assert rs[0] in rs && forall r | r in rs[1..] :: r in rs;
      SavedIffUnchangedSince(was, bot, rs[0].sections, title, digest);
      OutdatedPutsChangeNothing(was, bot, rs[1..], title, digest);
    }
  }

  /** Sending back unchanged what GET shows is saved, and leaves the page as it was, exactly when what is
      shown is well formed: always after a PUT, but not for the fallback of a blank flat text. */
  lemma EchoSavedIff(bot: Bot, title: string -> string, digest: seq<Blob> -> string)
    requires Sha(digest)
    ensures var (after, reply) := Putting(bot, Str(Getting(bot, digest).sha), Arr(Objs(Shown(bot))), title, digest);
            reply.Saved? && Getting(after, digest).sections == Shown(bot) <==> WellFormed(Shown(bot), title)
  {
    hide Validated, WellFormed;
    var (after, reply) := Putting(bot, Str(Getting(bot, digest).sha), Arr(Objs(Shown(bot))), title, digest);
    SavedIffUnchangedSince(bot, bot, Arr(Objs(Shown(bot))), title, digest);
    FixedIffWellFormed(Shown(bot), title);
    if reply.Saved? {
      ValidatedIsWellFormed(Arr(Objs(Shown(bot))), title);
      DictsOfObjs(reply.view.sections);
    }
  }

  lemma FallbackNames()
    ensures Matches(FALLBACK_ID) && Strip(FALLBACK_HEADING) == FALLBACK_HEADING && FALLBACK_HEADING != ""
  {
  }

  lemma FallbackWellFormedIff(flat: string, title: string -> string)
    ensures WellFormed([Fallback(flat)], title) <==> Strip(flat) != ""
  {
    hide Strip, Matches, Section;
    SectionFields(FALLBACK_ID, FALLBACK_HEADING, flat, true);
    FallbackNames();
    var s := Fallback(flat);
    assert Normal(s, title) <==> Strip(flat) != "";
    assert [s][0] == s;
  }
}
