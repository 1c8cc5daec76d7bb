/** The host list of a multi-host database URL and the connection failover of app/database.py. */
module Dsn {
  import opened Options
  import opened Strings

  datatype Error = IndexError | ValueError

  datatype Result<+T> = Ok(value: T) | Raised(error: Error) {
    predicate IsFailure() {
      Raised?
    }

    function PropagateFailure<U>(): Result<U>
      requires Raised?
    {
      Raised(error)
    }

    function Extract(): T
      requires Ok?
    {
      value
    }
  }

  datatype Host = Host(name: string, port: int)

  // ---------------------------------------------------------------- splitting strings

  /** `s.split(c, 1)[0]`, also `s.partition(c)[0]` */
  function Before(s: string, c: char): (r: string)
    ensures c !in r && r <= s
    ensures |r| < |s| ==> s[|r|] == c
  {
    if s == "" || s[0] == c then "" else [s[0]] + Before(s[1..], c)
  }

  /** `s.partition(c)[2]` */
  function After(s: string, c: char): string {
    var b := Before(s, c);
    if |b| < |s| then s[|b| + 1..] else ""
  }

  /** `s.rsplit(c, 1)[-1]` */
  function Last(s: string, c: char): (r: string)
    ensures c !in r
  {
    if s == "" || s[|s| - 1] == c then "" else Last(s[..|s| - 1], c) + [s[|s| - 1]]
  }

  /** `s.split(c)` */
  function Split(s: string, c: char): (parts: seq<string>)
    ensures parts != []
    decreases |s|
  {
    var b := Before(s, c);
    if |b| < |s| then [b] + Split(s[|b| + 1..], c) else [b]
  }

  function Join(parts: seq<string>, c: char): string
    requires parts != []
  {
    if |parts| == 1 then parts[0] else parts[0] + [c] + Join(parts[1..], c)
  }

  lemma {:induction false} BeforeFirst(a: string, c: char, b: string)
    requires c !in a
    ensures Before(a + [c] + b, c) == a && After(a + [c] + b, c) == b
  {
    var s := a + [c] + b;
    if a == "" {
    } else {
      assert a[0] in a;
      assert s[1..] == a[1..] + [c] + b;
      BeforeFirst(a[1..], c, b);
    }
    assert Before(s, c) == a;
    assert s[|a| + 1..] == b;
  }

  lemma {:induction false} BeforeNone(s: string, c: char)
    requires c !in s
    ensures Before(s, c) == s
  {
  }

  lemma {:induction false} LastAfter(a: string, c: char, b: string)
    requires c !in b
    ensures Last(a + [c] + b, c) == b
  {
    var s := a + [c] + b;
    if b == "" {
    } else {
      assert b[|b| - 1] in b;
      assert s[..|s| - 1] == a + [c] + b[..|b| - 1];
      LastAfter(a, c, b[..|b| - 1]);
    }
  }

  lemma {:induction false} LastNone(s: string, c: char)
    requires c !in s
    ensures Last(s, c) == s
  {
    if s == "" {
    } else {
      assert s[|s| - 1] in s;
      LastNone(s[..|s| - 1], c);
    }
  }

  lemma {:induction false} SplitJoin(parts: seq<string>, c: char)
    requires parts != [] && forall p | p in parts :: c !in p
    ensures Split(Join(parts, c), c) == parts
  {
    assert parts[0] in parts;
    if |parts| == 1 {
      BeforeNone(parts[0], c);
    } else {
      BeforeFirst(parts[0], c, Join(parts[1..], c));
      SplitJoin(parts[1..], c);
    }
  }

  // ---------------------------------------------------------------- int()

  predicate Digits(s: string) {
    forall i | 0 <= i < |s| :: IsDigit(s[i])
  }

  function DropUnderscores(s: string): string {
    if s == "" then "" else (if s[0] == '_' then "" else [s[0]]) + DropUnderscores(s[1..])
  }

  /** Digits, with single underscores between them. */
  predicate Numeral(s: string) {
    && s != "" && s[0] != '_' && s[|s| - 1] != '_'
    && (forall i | 0 <= i < |s| :: IsDigit(s[i]) || s[i] == '_')
    && (forall i | 0 < i < |s| && s[i] == '_' :: s[i - 1] != '_')
  }

  lemma {:induction false} OnlyDigitsLeft(s: string)
    requires forall i | 0 <= i < |s| :: IsDigit(s[i]) || s[i] == '_'
    ensures Digits(DropUnderscores(s))
    ensures Digits(s) ==> DropUnderscores(s) == s
  {
    if s == "" {
    } else {
      OnlyDigitsLeft(s[1..]);
    }
  }

  /** `int(s)` on ASCII text: surrounding white space, a sign, digits with underscores between. */
  function IntOf(s: string): (r: Result<int>)
    ensures r.Raised? ==> r.error == ValueError
  {
    var t := Strip(s);
    var signed := t != "" && (t[0] == '+' || t[0] == '-');
    var body := if signed then t[1..] else t;
    if !Numeral(body) then Raised(ValueError)
    else
      OnlyDigitsLeft(body);
      var n: int := Value(DropUnderscores(body));
      Ok(if signed && t[0] == '-' then -n else n)
  }

  lemma DigitsStand(s: string)
    requires s != "" && Digits(s)
    ensures Strip(s) == s && Numeral(s) && s[0] != '+' && s[0] != '-'
  {
  }

  lemma IntOfDecimal(n: nat)
    ensures IntOf(Decimal(n)) == Ok(n)
  {
    hide Decimal, Value, Strip, Numeral, DropUnderscores;
    var s := Decimal(n);
    DigitsStand(s);
    OnlyDigitsLeft(s);
    ValueOfDecimal(n);
  }

  lemma {:induction false} DropAppend(a: string, b: string)
    ensures DropUnderscores(a + b) == DropUnderscores(a) + DropUnderscores(b)
  {
    if a == "" {
      assert a + b == b;
    } else {
      assert (a + b)[1..] == a[1..] + b;
      DropAppend(a[1..], b);
    }
  }

  lemma InkStands(s: string)
    requires s != "" && !IsSpace(s[0]) && !IsSpace(s[|s| - 1])
    ensures Strip(s) == s
  {
  }

  lemma NumeralStands(s: string)
    requires Numeral(s)
    ensures IntOf(s) == (OnlyDigitsLeft(s); Ok(Value(DropUnderscores(s))))
  {
    assert IsDigit(s[0]) && IsDigit(s[|s| - 1]);
    InkStands(s);
  }

  /** One underscore between digits is passed over, two are an error. */
  lemma IntOfUnderscore(a: string, b: string)
    requires a != "" && b != "" && Digits(a) && Digits(b)
    ensures IntOf(a + "_" + b) == IntOf(a + b) && IntOf(a + b).Ok?
    ensures IntOf(a + "__" + b) == Raised(ValueError)
  {
    hide Strip, Value, DropUnderscores;
    var one, two := a + "_" + b, a + "__" + b;
    InkStands(two);
    assert two[|a|] == two[|a| + 1] == '_';
    DropAppend(a, "_" + b);
    DropAppend("_", b);
    DropAppend(a, b);
    JustUnderscore();
    assert one == a + ("_" + b) && one[|a|] == '_';
    assert DropUnderscores(one) == DropUnderscores(a) + ("" + DropUnderscores(b)) == DropUnderscores(a + b);
    assert Numeral(one) && Numeral(a + b);
    NumeralStands(one);
    NumeralStands(a + b);
  }

  lemma JustUnderscore()
    ensures DropUnderscores("_") == ""
  {
    assert "_"[1..] == "";
  }

  /** A port may be signed, and white space around it does not matter. */
  lemma IntOfSigned(n: int, before: string, after: string)
    requires n >= 0 && Blank(before) && Blank(after)
    ensures IntOf(before + "-" + Decimal(n) + after) == Ok(-n) && IntOf(before + "+" + Decimal(n) + after) == Ok(n)
  {
    IntOfMarked(n, before, '-', after);
    IntOfMarked(n, before, '+', after);
    assert before + ['-'] + Decimal(n) + after == before + "-" + Decimal(n) + after;
    assert before + ['+'] + Decimal(n) + after == before + "+" + Decimal(n) + after;
  }

  lemma IntOfMarked(n: int, before: string, sign: char, after: string)
    requires n >= 0 && Blank(before) && Blank(after) && (sign == '-' || sign == '+')
    ensures IntOf(before + [sign] + Decimal(n) + after) == Ok(if sign == '-' then -n else n)
  {
    hide Decimal, Value, Numeral, DropUnderscores, Blank;
    var s := [sign] + Decimal(n);
    StripBetween(before, s, after);
    assert before + [sign] + Decimal(n) + after == before + s + after;
    DigitsStand(Decimal(n));
    OnlyDigitsLeft(Decimal(n));
    ValueOfDecimal(n);
    assert s[1..] == Decimal(n);
  }

  // ---------------------------------------------------------------- the host list

  function HostOf(hostport: string): (r: Result<Host>)
    ensures r.Raised? ==> r.error == ValueError
  {
    var port := After(hostport, ':');
    if port == "" then Ok(Host(Before(hostport, ':'), 5432))
    else
      var n :- IntOf(port);
      Ok(Host(Before(hostport, ':'), n))
  }

  function HostsOf(hostports: seq<string>): (r: Result<seq<Host>>)
    ensures r.Ok? ==> |r.value| == |hostports|
    ensures r.Raised? ==> r.error == ValueError
  {
    if hostports == [] then Ok([])
    else
      var hosts :- HostsOf(hostports[..|hostports| - 1]);
      var h :- HostOf(hostports[|hostports| - 1]);
      Ok(hosts + [h])
  }

  const SCHEME_END: string := "://"

  /** What `_host_list` returns or raises. */
  function HostListOf(url: string): Result<seq<Host>> {
    var p := Find(url, SCHEME_END, 0);
    if p == -1 then Raised(IndexError)
    else HostsOf(Split(Last(Before(url[p + |SCHEME_END|..], '/'), '@'), ','))
  }

  /** No `://`, and only that, is an IndexError; an accepted URL names at least one host. */
  lemma HostListFails(url: string)
    ensures HostListOf(url) == Raised(IndexError) <==> !Has(url, SCHEME_END)
    ensures HostListOf(url).Ok? ==> |HostListOf(url).value| > 0
  {
  }

  method HostList(url: string) returns (r: Result<seq<Host>>)
    ensures r == HostListOf(url)
  {
    hide Find, IntOf, Before, Last, Split;
    var p := Find(url, SCHEME_END, 0);
    if p == -1 {
      return Raised(IndexError);
    }
    var authority := Before(url[p + |SCHEME_END|..], '/');
    var hostports := Split(Last(authority, '@'), ',');
    var hosts: seq<Host> := [];
    for i := 0 to |hostports|
      invariant HostsOf(hostports[..i]) == Ok(hosts)
    {
      assert hostports[..i + 1][..i] == hostports[..i];
      var host, port := Before(hostports[i], ':'), After(hostports[i], ':');
      var n := 5432;
      if port != "" {
        var parsed := IntOf(port);
        if parsed.Raised? {
          FirstErrorStays(hostports, i + 1);
          return Raised(parsed.error);
        }
        n := parsed.value;
      }
      hosts := hosts + [Host(host, n)];
    }
    assert hostports[..|hostports|] == hostports;
    return Ok(hosts);
  }

  lemma {:induction false} FirstErrorStays(hostports: seq<string>, i: nat)
    requires i <= |hostports| && HostsOf(hostports[..i]).Raised?
    ensures HostsOf(hostports) == HostsOf(hostports[..i])
    decreases |hostports| - i
  {
    if i < |hostports| {
      assert hostports[..i + 1][..i] == hostports[..i];
      FirstErrorStays(hostports, i + 1);
    } else {
      assert hostports[..i] == hostports;
    }
  }

  // ---------------------------------------------------------------- the URL form it inverts

  /** One entry of the list: a name and perhaps a port. */
  datatype Entry = Entry(name: string, port: Option<nat>)

  function Written(e: Entry): string {
    match e.port
    case None => e.name
    case Some(n) => e.name + ":" + Decimal(n)
  }

  function Meant(e: Entry): Host {
    Host(e.name, if e.port.None? then 5432 else e.port.value)
  }

  function WrittenAll(entries: seq<Entry>): (written: seq<string>)
    ensures |written| == |entries|
  {
    seq(|entries|, i requires 0 <= i < |entries| => Written(entries[i]))
  }

  function MeantAll(entries: seq<Entry>): seq<Host> {
    seq(|entries|, i requires 0 <= i < |entries| => Meant(entries[i]))
  }

  /** scheme://userinfo@h1:p1,h2/path, with userinfo and path optional. */
  function Url(scheme: string, userinfo: Option<string>, entries: seq<Entry>, path: Option<string>): string
    requires entries != []
  {
    scheme + SCHEME_END + Authority(userinfo, Join(WrittenAll(entries), ','))
    + (if path.None? then "" else "/" + path.value)
  }

  /** The characters that end a host name in a URL's authority, the colon aside. */
  predicate Plain(s: string) {
    ',' !in s && '/' !in s && '@' !in s
  }

  lemma WrittenPlain(e: Entry)
    requires Plain(e.name)
    ensures Plain(Written(e))
  {
  }

  lemma {:induction false} JoinLacks(parts: seq<string>, c: char, d: char)
    requires parts != [] && c != d && forall p | p in parts :: d !in p
    ensures d !in Join(parts, c)
  {
    assert parts[0] in parts;
    if |parts| == 1 {
    } else {
      JoinLacks(parts[1..], c, d);
    }
  }

  /** An entry comes back as meant exactly when its name has no colon: a bracketed IPv6 literal
      (section 3.2.2 of RFC 3986) does not. */
  lemma HostOfWrittenIff(e: Entry)
    ensures HostOf(Written(e)) == Ok(Meant(e)) <==> ':' !in e.name
  {
    if ':' !in e.name {
      match e.port
      case None => BeforeNone(e.name, ':');
      case Some(n) =>
        BeforeFirst(e.name, ':', Decimal(n));
        IntOfDecimal(n);
        assert Written(e) == e.name + [':'] + Decimal(n);
    } else {
      assert HostOf(Written(e)).Ok? ==> HostOf(Written(e)).value.name == Before(Written(e), ':');
    }
  }

  lemma {:induction false} HostsOfWrittenIff(entries: seq<Entry>)
    ensures HostsOf(WrittenAll(entries)) == Ok(MeantAll(entries)) <==> forall e | e in entries :: ':' !in e.name
  {
    hide HostOf, Written, Meant;
    if entries != [] {
      var n := |entries| - 1;
      var init := entries[..n];
      HostsOfWrittenIff(init);
      HostOfWrittenIff(entries[n]);
      assert WrittenAll(entries)[..n] == WrittenAll(init);
      assert MeantAll(entries) == MeantAll(init) + [Meant(entries[n])];
      assert entries == init + [entries[n]];
      var r := HostsOf(WrittenAll(entries));
      assert r.Ok? ==> r.value[..n] == HostsOf(WrittenAll(init)).value;
      assert MeantAll(entries)[..n] == MeantAll(init) && MeantAll(entries)[n] == Meant(entries[n]);
      assert r.Ok? ==> Ok(r.value[n]) == HostOf(Written(entries[n]));
    } else {
      assert WrittenAll(entries) == [] && MeantAll(entries) == [];
    }
  }

  lemma SchemeEnds(scheme: string, rest: string)
    requires ':' !in scheme
    ensures Find(scheme + SCHEME_END + rest, SCHEME_END, 0) == |scheme|
  {
    var url := scheme + SCHEME_END + rest;
    assert url[|scheme|..|scheme| + |SCHEME_END|] == SCHEME_END;
    forall j: nat | j < |scheme| ensures !At(url, SCHEME_END, j) {
      assert url[j] in scheme;
      if At(url, SCHEME_END, j) {
        AtChar(url, SCHEME_END, j, 0);
      }
    }
    FindUnique(url, SCHEME_END, |scheme|);
  }

  /** The authority is what stands between the scheme and the first slash after it. */
  lemma AuthorityDecides(scheme: string, authority: string, path: Option<string>)
    requires ':' !in scheme && '/' !in authority
    ensures var url := scheme + SCHEME_END + authority + (if path.None? then "" else "/" + path.value);
            HostListOf(url) == HostsOf(Split(Last(authority, '@'), ','))
  {
    var rest := authority + (if path.None? then "" else "/" + path.value);
    var url := scheme + SCHEME_END + authority + (if path.None? then "" else "/" + path.value);
    assert url == scheme + SCHEME_END + rest;
    SchemeEnds(scheme, rest);
    assert url[|scheme| + |SCHEME_END|..] == rest;
    if path.None? {
      assert rest == authority;
      BeforeNone(authority, '/');
    } else {
      assert rest == authority + ['/'] + path.value;
      BeforeFirst(authority, '/', path.value);
    }
  }

  lemma ListLacks(entries: seq<Entry>)
    requires entries != [] && forall e | e in entries :: Plain(e.name)
    ensures var list := Join(WrittenAll(entries), ',');
            '/' !in list && '@' !in list && Split(list, ',') == WrittenAll(entries)
  {
    hide Written, Split, Join;
    var written := WrittenAll(entries);
    forall w | w in written ensures Plain(w) {
      var i :| 0 <= i < |written| && written[i] == w;
      WrittenPlain(entries[i]);
    }
    JoinLacks(written, ',', '/');
    JoinLacks(written, ',', '@');
    SplitJoin(written, ',');
  }

  function Authority(userinfo: Option<string>, list: string): string {
    if userinfo.None? then list else userinfo.value + "@" + list
  }

  lemma LastOfAuthority(userinfo: Option<string>, list: string)
    requires '@' !in list
    ensures Last(Authority(userinfo, list), '@') == list
  {
    if userinfo.None? {
      LastNone(list, '@');
    } else {
      assert Authority(userinfo, list) == userinfo.value + ['@'] + list;
      LastAfter(userinfo.value, '@', list);
    }
  }

  /** Parsing inverts writing, for any number of hosts and any user information without a slash,
      exactly when no host name holds a colon. */
  lemma HostListInvertsIff(scheme: string, userinfo: Option<string>, entries: seq<Entry>, path: Option<string>)
    requires ':' !in scheme && entries != []
    requires userinfo.Some? ==> '/' !in userinfo.value
    requires forall e | e in entries :: Plain(e.name)
    ensures HostListOf(Url(scheme, userinfo, entries, path)) == Ok(MeantAll(entries)) <==>
            forall e | e in entries :: ':' !in e.name
  {
    hide HostListOf, Split, Join, Last, HostsOf, WrittenAll, MeantAll;
    var list := Join(WrittenAll(entries), ',');
    ListLacks(entries);
    LastOfAuthority(userinfo, list);
    AuthorityDecides(scheme, Authority(userinfo, list), path);
    HostsOfWrittenIff(entries);
  }

  /** Why the slash must be escaped: with one in the user information, the hosts behind it are never
      looked at. */
  lemma SlashHidesHosts(scheme: string, before: string, after: string)
    requires ':' !in scheme && '/' !in before
    ensures HostListOf(scheme + SCHEME_END + before + "/" + after) == HostListOf(scheme + SCHEME_END + before)
  {
    AuthorityDecides(scheme, before, Some(after));
    AuthorityDecides(scheme, before, None);
    assert scheme + SCHEME_END + before + ("/" + after) == scheme + SCHEME_END + before + "/" + after;
    assert scheme + SCHEME_END + before + "" == scheme + SCHEME_END + before;
  }

  // ---------------------------------------------------------------- a query straight after the hosts

  /** The form without a path: section 3.2 of RFC 3986 ends the authority at the question mark, the code
      reads on to the first slash. */
  function QueryUrl(scheme: string, userinfo: Option<string>, entries: seq<Entry>, query: string): string
    requires entries != []
  {
    scheme + SCHEME_END + Authority(userinfo, Join(WrittenAll(entries), ',')) + "?" + query
  }

  lemma {:induction false} BeforeJoins(a: string, c: char, b: string)
    requires c !in a
    ensures Before(a + b, c) == a + Before(b, c)
  {
    if a == "" {
      assert a + b == b;
    } else {
      var rest := a[1..];
      assert a[0] in a && (a + b)[1..] == rest + b;
      BeforeJoins(rest, c, b);
      assert a == [a[0]] + rest;
    }
  }

  lemma BeforeKeeps(a: string, c: char, b: string)
    requires c !in a
    ensures Before(a + b, c) == a + Before(b, c) && After(a + b, c) == After(b, c)
  {
    hide Before;
    BeforeJoins(a, c, b);
    var n := |Before(b, c)|;
    if n < |b| {
      assert (a + b)[|a| + n + 1..] == b[n + 1..];
    }
  }

  lemma SplitFirst(a: string, c: char, b: string)
    requires c !in a
    ensures Split(a + [c] + b, c) == [a] + Split(b, c)
  {
    BeforeFirst(a, c, b);
  }

  lemma {:induction false} SplitJoinTail(parts: seq<string>, c: char, tail: string)
    requires parts != [] && forall p | p in parts :: c !in p
    ensures Split(Join(parts, c) + tail, c) == parts[..|parts| - 1] + Split(parts[|parts| - 1] + tail, c)
  {
    hide Split;
    assert parts[0] in parts;
    if |parts| == 1 {
      assert parts[..0] == [];
    } else {
      var rest := Join(parts[1..], c) + tail;
      assert Join(parts, c) + tail == parts[0] + [c] + rest;
      SplitFirst(parts[0], c, rest);
      SplitJoinTail(parts[1..], c, tail);
      assert parts[..|parts| - 1] == [parts[0]] + parts[1..][..|parts| - 2];
    }
  }

  lemma {:induction false} StripKeeps(s: string, c: char)
    requires c in s && !IsSpace(c)
    ensures c in Strip(s)
  {
    LStripKeeps(s, c);
    RStripKeeps(LStrip(s), c);
  }

  lemma {:induction false} LStripKeeps(s: string, c: char)
    requires c in s && !IsSpace(c)
    ensures c in LStrip(s)
  {
    if !IsSpace(s[0]) {
    } else {
      LStripKeeps(s[1..], c);
    }
  }

  lemma {:induction false} RStripKeeps(s: string, c: char)
    requires c in s && !IsSpace(c)
    ensures c in RStrip(s)
  {
    if !IsSpace(s[|s| - 1]) {
    } else {
      assert s == s[..|s| - 1] + [s[|s| - 1]];
      RStripKeeps(s[..|s| - 1], c);
    }
  }

  lemma NoNumberWithQuery(port: string)
    requires '?' in port
    ensures IntOf(port).Raised?
  {
    hide Strip;
    StripKeeps(port, '?');
    var t := Strip(port);
    var k :| 0 <= k < |t| && t[k] == '?';
    if t[0] == '+' || t[0] == '-' {
      assert t[1..][k - 1] == '?';
    }
  }

  /** The last entry with the query glued to it. */
  lemma HostWithQuery(e: Entry, read: string)
    ensures HostOf(Written(e) + "?" + read) != Ok(Meant(e))
    ensures ':' !in e.name ==>
              (HostOf(Written(e) + "?" + read).Raised? <==>
               e.port.Some? || (After(read, ':') != "" && IntOf(After(read, ':')).Raised?))
  {
    hide IntOf;
    var s := Written(e) + "?" + read;
    if ':' in e.name {
      assert HostOf(s).Ok? ==> HostOf(s).value.name == Before(s, ':');
    } else {
      match e.port
      case None =>
        assert s == (e.name + "?") + read;
        BeforeKeeps(e.name + "?", ':', read);
      case Some(n) =>
        var port := Decimal(n) + "?" + read;
        assert s == e.name + [':'] + port;
        BeforeFirst(e.name, ':', port);
        assert port[|Decimal(n)|] == '?';
        NoNumberWithQuery(port);
    }
  }

  /** What of the query the code reads, and what it drops as a path. */
  function PathOf(query: string): Option<string> {
    var read := Before(query, '/');
    if |read| < |query| then Some(query[|read| + 1..]) else None
  }

  lemma QueryAsPath(head: string, query: string)
    ensures head + "?" + query ==
            head + ("?" + Before(query, '/')) + (if PathOf(query).None? then "" else "/" + PathOf(query).value)
  {
    hide Before;
    var read := Before(query, '/');
    if |read| == |query| {
      assert read == query;
    } else {
      assert query == read + ("/" + query[|read| + 1..]);
    }
    assert head + "?" + read == head + ("?" + read);
  }

  /** The URL as the code cuts it: scheme, authority with what is read of the query, the rest. */
  lemma QueryUrlParts(scheme: string, userinfo: Option<string>, entries: seq<Entry>, query: string)
    requires entries != []
    ensures QueryUrl(scheme, userinfo, entries, query) ==
            scheme + SCHEME_END + (Authority(userinfo, Join(WrittenAll(entries), ',')) + ("?" + Before(query, '/'))) +
            (if PathOf(query).None? then "" else "/" + PathOf(query).value)
  {
    hide Join, WrittenAll, Authority, Before, PathOf;
    var front, hosts := scheme + SCHEME_END, Authority(userinfo, Join(WrittenAll(entries), ','));
    QueryAsPath(front + hosts, query);
    assert front + (hosts + ("?" + Before(query, '/'))) == front + hosts + ("?" + Before(query, '/'));
  }

  lemma AuthorityAppend(userinfo: Option<string>, list: string, tail: string)
    ensures Authority(userinfo, list + tail) == Authority(userinfo, list) + tail
  {
    if userinfo.Some? {
      assert userinfo.value + "@" + (list + tail) == userinfo.value + "@" + list + tail;
    }
  }

  /** What the code takes for the host list. */
  lemma QueryIsRead(scheme: string, userinfo: Option<string>, entries: seq<Entry>, query: string)
    requires ':' !in scheme && entries != [] && (userinfo.Some? ==> '/' !in userinfo.value)
    requires (forall e | e in entries :: Plain(e.name)) && '@' !in Before(query, '/')
    ensures var n := |entries| - 1;
            HostListOf(QueryUrl(scheme, userinfo, entries, query)) ==
            HostsOf(WrittenAll(entries[..n]) + Split(Written(entries[n]) + "?" + Before(query, '/'), ','))
  {
    hide HostListOf, Split, Join, Last, HostsOf, PathOf, Plain;
    var n, written := |entries| - 1, WrittenAll(entries);
    var list, tail := Join(written, ','), "?" + Before(query, '/');
    ListLacks(entries);
    LastOfAuthority(userinfo, list + tail);
    QueryUrlParts(scheme, userinfo, entries, query);
    AuthorityAppend(userinfo, list, tail);
    AuthorityDecides(scheme, Authority(userinfo, list + tail), PathOf(query));
    WrittenWithTail(entries, tail);
    assert Written(entries[n]) + tail == Written(entries[n]) + "?" + Before(query, '/');
  }

  lemma WrittenWithTail(entries: seq<Entry>, tail: string)
    requires entries != [] && forall e | e in entries :: Plain(e.name)
    ensures var n := |entries| - 1;
            Split(Join(WrittenAll(entries), ',') + tail, ',') ==
            WrittenAll(entries[..n]) + Split(Written(entries[n]) + tail, ',')
  {
    hide Split, Join, Written;
    var n, written := |entries| - 1, WrittenAll(entries);
    forall w | w in written ensures ',' !in w {
      var i :| 0 <= i < |written| && written[i] == w;
      WrittenPlain(entries[i]);
    }
    SplitJoinTail(written, ',', tail);
    assert written[..n] == WrittenAll(entries[..n]);
  }

  lemma {:induction false} LastSuffix(a: string, c: char, b: string)
    requires c in b
    ensures Last(a + b, c) == Last(b, c)
  {
    var s, n := a + b, |b| - 1;
    assert s[|s| - 1] == b[n] && s[..|s| - 1] == a + b[..n];
    if b[n] == c {
    } else {
      assert b == b[..n] + [b[n]];
      LastSuffix(a, c, b[..n]);
    }
  }

  /** The authority with what is read of the query holds no slash. */
  lemma QueryEndsAuthority(userinfo: Option<string>, entries: seq<Entry>, query: string)
    requires entries != [] && (userinfo.Some? ==> '/' !in userinfo.value)
    requires forall e | e in entries :: Plain(e.name)
    ensures '/' !in Authority(userinfo, Join(WrittenAll(entries), ',')) + ("?" + Before(query, '/'))
  {
    hide Join, WrittenAll, Plain;
    ListLacks(entries);
  }

  /** And one with an `@` hides the hosts altogether. */
  lemma AtInQueryHidesHosts(scheme: string, userinfo: Option<string>, entries: seq<Entry>, query: string)
    requires ':' !in scheme && entries != [] && (userinfo.Some? ==> '/' !in userinfo.value)
    requires (forall e | e in entries :: Plain(e.name)) && '@' in Before(query, '/')
    ensures HostListOf(QueryUrl(scheme, userinfo, entries, query)) ==
            HostsOf(Split(Last(Before(query, '/'), '@'), ','))
  {
    hide *;
    var hosts, tail := Authority(userinfo, Join(WrittenAll(entries), ',')), "?" + Before(query, '/');
    QueryEndsAuthority(userinfo, entries, query);
    QueryUrlParts(scheme, userinfo, entries, query);
    AuthorityDecides(scheme, hosts + tail, PathOf(query));
    assert hosts + tail == (hosts + "?") + Before(query, '/');
    LastSuffix(hosts + "?", '@', Before(query, '/'));
  }

  lemma HostsOfAppend(init: seq<string>, last: string)
    ensures HostsOf(init + [last]).Raised? <==> HostsOf(init).Raised? || HostOf(last).Raised?
    ensures HostsOf(init + [last]).Ok? ==> HostsOf(init + [last]).value == HostsOf(init).value + [HostOf(last).value]
  {
    hide HostOf;
    assert (init + [last])[..|init|] == init;
  }

  /** Such a URL never gives the hosts it names: a query without `@` goes into the last of them. */
  lemma QueryNeverParses(scheme: string, userinfo: Option<string>, entries: seq<Entry>, query: string)
    requires ':' !in scheme && entries != [] && (userinfo.Some? ==> '/' !in userinfo.value)
    requires (forall e | e in entries :: Plain(e.name)) && '@' !in Before(query, '/')
    ensures HostListOf(QueryUrl(scheme, userinfo, entries, query)) != Ok(MeantAll(entries))
  {
    hide HostListOf, HostOf, Written, Meant, WrittenAll;
    var n := |entries| - 1;
    var last := Written(entries[n]) + "?" + Before(query, '/');
    QueryIsRead(scheme, userinfo, entries, query);
    var parts := Split(last, ',');
    if |parts| == 1 {
      assert Before(last, ',') == last && parts == [last];
      HostWithQuery(entries[n], Before(query, '/'));
      HostsOfAppend(WrittenAll(entries[..n]), last);
      assert MeantAll(entries)[n] == Meant(entries[n]);
    }
  }

  /** Exactly when it raises, for host names without a colon and a query without a comma: when the last
      host has a port, or the query holds a colon with no number after it. */
  lemma QueryRaisesIff(scheme: string, userinfo: Option<string>, entries: seq<Entry>, query: string)
    requires ':' !in scheme && entries != [] && (userinfo.Some? ==> '/' !in userinfo.value)
    requires forall e | e in entries :: Plain(e.name) && ':' !in e.name
    requires '@' !in Before(query, '/') && ',' !in Before(query, '/')
    ensures var port := After(Before(query, '/'), ':');
            HostListOf(QueryUrl(scheme, userinfo, entries, query)) == Raised(ValueError) <==>
            entries[|entries| - 1].port.Some? || (port != "" && IntOf(port).Raised?)
  {
    hide HostListOf, HostOf, Written, WrittenAll, IntOf;
    var n, read := |entries| - 1, Before(query, '/');
    var last := Written(entries[n]) + "?" + read;
    QueryIsRead(scheme, userinfo, entries, query);
    WrittenPlain(entries[n]);
    BeforeNone(last, ',');
    assert Split(last, ',') == [last];
    HostWithQuery(entries[n], read);
    HostsOfWrittenIff(entries[..n]);
    HostsOfAppend(WrittenAll(entries[..n]), last);
  }

  // ---------------------------------------------------------------- failover

  /** How one connection attempt ends. */
  datatype Attempt<C> = Connected(conn: C) | StartingUp | ReadOnly | Unreachable | Failed

  datatype Outcome<C> = Got(conn: C) | NoLeader(skipped: nat) | Reraised

  predicate Skipped<C>(a: Attempt<C>) {
    a.StartingUp? || a.ReadOnly? || a.Unreachable?
  }

  /** The driver's own attempt first; only when it stops at a host starting up are the hosts tried one
      by one, and the first that answers as leader is taken. `tried` counts those attempts. */
  method ConnectWithFailover<C>(driver: Attempt<C>, hosts: seq<Attempt<C>>) returns (r: Outcome<C>, tried: nat)
    ensures !driver.StartingUp? ==> tried == 0 && r == if driver.Connected? then Got(driver.conn) else Reraised
    ensures driver.StartingUp? && r.Got? ==>
            && 0 < tried <= |hosts| && hosts[tried - 1] == Connected(r.conn)
            && forall i | 0 <= i < tried - 1 :: Skipped(hosts[i])
    ensures driver.StartingUp? && r.NoLeader? ==>
            tried == r.skipped == |hosts| && forall i | 0 <= i < |hosts| :: Skipped(hosts[i])
    ensures driver.StartingUp? && r.Reraised? ==>
            && 0 < tried <= |hosts| && hosts[tried - 1].Failed? && forall i | 0 <= i < tried - 1 :: Skipped(hosts[i])
  {
    if driver.Connected? {
      return Got(driver.conn), 0;
    }
    if !driver.StartingUp? {
      return Reraised, 0;
    }
    tried := 0;
    for i := 0 to |hosts|
      invariant tried == i && forall j | 0 <= j < i :: Skipped(hosts[j])
    {
      tried := tried + 1;
      if hosts[i].Connected? {
        return Got(hosts[i].conn), tried;
      }
      if hosts[i].Failed? {
        return Reraised, tried;
      }
    }
    return NoLeader(tried), tried;
  }
}
