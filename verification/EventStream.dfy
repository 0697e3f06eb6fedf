/** The event-stream harvester: the sources a conversation's frames name,
    canonical, sorted and deduplicated. */
module EventStream {
  import opened Wrappers
  import opened JsonWalk

  // ----- Order -----

  predicate Below(x: string, y: string) {
    y != [] && (x == [] || x[0] < y[0] || (x[0] == y[0] && Below(x[1..], y[1..])))
  }

  lemma {:induction false} BelowIsTotal(x: string, y: string)
    ensures (if Below(x, y) then 1 else 0) + (if Below(y, x) then 1 else 0) + (if x == y then 1 else 0) == 1
  {
    if x != [] && y != [] && x[0] == y[0] {
      BelowIsTotal(x[1..], y[1..]);
      assert x == [x[0]] + x[1..] && y == [y[0]] + y[1..];
    }
  }

  lemma {:induction false} BelowThrough(x: string, y: string, z: string)
    requires Below(x, y) && Below(y, z)
    ensures Below(x, z)
  {
    if x != [] && x[0] == y[0] == z[0] {
      BelowThrough(x[1..], y[1..], z[1..]);
    }
  }

  ghost predicate Ascending(urls: seq<string>) {
    forall i, j | 0 <= i < j < |urls| :: Below(urls[i], urls[j])
  }

  ghost predicate Ordered(urls: seq<string>) {
    forall i, j | 0 <= i < j < |urls| :: urls[i] == urls[j] || Below(urls[i], urls[j])
  }

  /** The built-in sort. What is kept of it below holds of any sort. */
  function Sorted(urls: seq<string>): (r: seq<string>)
    ensures multiset(r) == multiset(urls) && Ordered(r)
  {
    if urls == [] then []
    else
      assert urls == [urls[0]] + urls[1..];
      Inserted(urls[0], Sorted(urls[1..]))
  }

  function Inserted(url: string, urls: seq<string>): (r: seq<string>)
    requires Ordered(urls)
    ensures multiset(r) == multiset{url} + multiset(urls) && Ordered(r)
  {
    if urls == [] then [url]
    else
      BelowIsTotal(url, urls[0]);
      assert urls == [urls[0]] + urls[1..];
      if Below(url, urls[0]) || url == urls[0] then
        OrderedFront(url, urls);
        [url] + urls
      else
        var rest := Inserted(url, urls[1..]);
        OrderedRest(urls[0], url, urls[1..], rest);
        [urls[0]] + rest
  }

  lemma OrderedFront(url: string, urls: seq<string>)
    requires Ordered(urls) && urls != [] && (Below(url, urls[0]) || url == urls[0])
    ensures Ordered([url] + urls)
  {
    forall j | 0 <= j < |urls| ensures url == urls[j] || Below(url, urls[j]) {
      if j > 0 && Below(urls[0], urls[j]) && Below(url, urls[0]) {
        BelowThrough(url, urls[0], urls[j]);
      }
    }
  }

  lemma OrderedRest(first: string, url: string, urls: seq<string>, rest: seq<string>)
    requires Ordered([first] + urls) && Below(first, url) && Ordered(rest)
    requires multiset(rest) == multiset{url} + multiset(urls)
    ensures Ordered([first] + rest)
  {
    forall j | 0 <= j < |rest| ensures first == rest[j] || Below(first, rest[j]) {
      assert rest[j] in multiset(rest);
      if rest[j] != url {
        var k :| 0 <= k < |urls| && urls[k] == rest[j];
        assert ([first] + urls)[0] == first && ([first] + urls)[k + 1] == urls[k];
      }
    }
  }

  /** What is strictly ascending is determined by its elements. */
  lemma {:induction false} AscendingIsUnique(x: seq<string>, y: seq<string>)
    requires Ascending(x) && Ascending(y) && forall u :: u in x <==> u in y
    ensures x == y
  {
    if x != [] && y != [] {
      assert x[0] in y && y[0] in x;
      AscendingFirst(x, y);
      AscendingFirst(y, x);
      BelowIsTotal(x[0], y[0]);
      assert x == [x[0]] + x[1..] && y == [y[0]] + y[1..];
      AscendingApart(x);
      AscendingApart(y);
      assert forall u :: u in x[1..] ==> u in x && u != x[0];
      assert forall u :: u in y[1..] ==> u in y && u != y[0];
      AscendingIsUnique(x[1..], y[1..]);
    } else {
      HasElement(x);
      HasElement(y);
    }
  }

  lemma HasElement(x: seq<string>)
    ensures x != [] ==> exists u :: u in x
  {
    assert x != [] ==> x[0] in x;
  }

  lemma AscendingFirst(x: seq<string>, y: seq<string>)
    requires Ascending(x) && x != [] && y != [] && y[0] in x
    ensures x[0] == y[0] || Below(x[0], y[0])
  {
  }

  lemma AscendingApart(x: seq<string>)
    requires Ascending(x) && x != []
    ensures x[0] !in x[1..]
  {
    BelowIsTotal(x[0], x[0]);
  }

  // ----- Canonical URLs -----

  datatype Param = Param(name: string, value: string)

  /** A URL as it is parsed: `front` is what lies between the protocol and the query. */
  datatype Url = Url(protocol: string, front: string, query: Option<string>, fragment: Option<string>)

  /** The URL parser and serialiser, and those of a form-encoded query. */
  datatype Browser = Browser(
    parse: string -> Option<Url>,
    write: Url -> string,
    params: string -> seq<Param>,
    form: seq<Param> -> string)
  {
    function Params(u: Url): seq<Param> {
      if u.query.Some? then params(u.query.value) else []
    }

    /** The query that holds `ps`; none when they leave it empty. */
    function WithParams(u: Url, ps: seq<Param>): Url {
      u.(query := if form(ps) == "" then None else Some(form(ps)))
    }

    /** What is written of a web URL reads back, as it was parsed or with its query replaced. */
    ghost predicate Valid() {
      && (forall ps :: params(form(ps)) == ps && (form(ps) == "" <==> ps == []))
      && (forall raw | parse(raw).Some? && OnWeb(parse(raw).value) :: parse(write(parse(raw).value)) == parse(raw))
      && (forall raw, ps | parse(raw).Some? && OnWeb(parse(raw).value) ::
            parse(write(WithParams(parse(raw).value, ps))) == Some(WithParams(parse(raw).value, ps)))
    }
  }

  predicate OnWeb(u: Url) {
    u.protocol == "http:" || u.protocol == "https:"
  }

  predicate Tracks(name: string) {
    "utm_" <= name
  }

  function Tracking(ps: seq<Param>): (r: seq<string>)
    ensures forall i | 0 <= i < |ps| :: ps[i].name in r <==> Tracks(ps[i].name)
    ensures forall i | 0 <= i < |r| :: Tracks(r[i])
  {
    if ps == [] then []
    else if Tracks(ps[0].name) then [ps[0].name] + Tracking(ps[1..])
    else Tracking(ps[1..])
  }

  /** The parameters none of `names` names. */
  function Without(ps: seq<Param>, names: seq<string>): seq<Param> {
    if ps == [] then []
    else if ps[0].name in names then Without(ps[1..], names)
    else [ps[0]] + Without(ps[1..], names)
  }

  function Untracked(ps: seq<Param>): (r: seq<Param>)
    ensures forall i | 0 <= i < |r| :: !Tracks(r[i].name)
  {
    if ps == [] then []
    else if Tracks(ps[0].name) then Untracked(ps[1..])
    else [ps[0]] + Untracked(ps[1..])
  }

  function Canonical(b: Browser, raw: string): Option<string> {
    match b.parse(raw)
    case None => None
    case Some(u) =>
      if !OnWeb(u) then None
      else if Tracking(b.Params(u)) != [] then Some(b.write(b.WithParams(u, Untracked(b.Params(u)))))
      else if b.Params(u) == [] then Some(b.write(u.(query := None)))
      else Some(b.write(u))
  }

  lemma {:induction false} WithoutMore(ps: seq<Param>, names: seq<string>, name: string)
    ensures Without(Without(ps, names), [name]) == Without(ps, names + [name])
  {
    if ps != [] {
      WithoutMore(ps[1..], names, name);
    }
  }

  lemma {:induction false} WithoutTracking(ps: seq<Param>, names: seq<string>)
    requires forall i | 0 <= i < |ps| :: ps[i].name in names <==> Tracks(ps[i].name)
    ensures Without(ps, names) == Untracked(ps)
  {
    if ps != [] {
      WithoutTracking(ps[1..], names);
    }
  }

  lemma {:induction false} WithoutNone(ps: seq<Param>)
    ensures Without(ps, []) == ps
  {
    if ps != [] {
      WithoutNone(ps[1..]);
    }
  }

  lemma {:induction false} UntrackedAlready(ps: seq<Param>)
    ensures Tracking(ps) == [] <==> Untracked(ps) == ps
    ensures Tracking(Untracked(ps)) == []
    ensures |Untracked(ps)| <= |ps|
  {
    if ps != [] {
      UntrackedAlready(ps[1..]);
    }
  }

  lemma {:induction false} UntrackedJoined(x: seq<Param>, y: seq<Param>)
    ensures Untracked(x + y) == Untracked(x) + Untracked(y)
  {
    if x == [] {
      assert x + y == y;
    } else {
      assert (x + y)[1..] == x[1..] + y;
      UntrackedJoined(x[1..], y);
    }
  }

  /** A parameter anywhere in a query is left out when its name begins with
      `utm_`, and otherwise kept where it is among the others. */
  lemma UntrackedAround(before: seq<Param>, p: Param, after: seq<Param>)
    ensures Untracked(before + [p] + after)
         == Untracked(before) + (if "utm_" <= p.name then [] else [p]) + Untracked(after)
  {
    assert Untracked([p]) == (if "utm_" <= p.name then [] else [p]) by { assert [p][1..] == []; }
    hide *;
    UntrackedJoined(before + [p], after);
    UntrackedJoined(before, [p]);
  }

  /** A canonical URL reads back as the page it was: the same but for its
      query, and of that the parameters that are not tracking ones; it has no
      query when none are left. What is not on the web has no canonical form. */
  lemma CanonicalKeepsPage(b: Browser, raw: string)
    requires b.Valid() && b.parse(raw).Some?
    ensures var u := b.parse(raw).value;
            if u.protocol !in {"http:", "https:"} then Canonical(b, raw) == None
            else
              && Canonical(b, raw).Some? && b.parse(Canonical(b, raw).value).Some?
              && var page := b.parse(Canonical(b, raw).value).value;
              && page.protocol == u.protocol && page.front == u.front && page.fragment == u.fragment
              && b.Params(page) == Untracked(b.Params(u)) && (page.query == None <==> Untracked(b.Params(u)) == [])
  {
    var u := b.parse(raw).value;
    UntrackedAlready(b.Params(u));
    assert b.WithParams(u, []) == u.(query := None);
  }

  /** One parameter deleted at a time, the query written again after each. */
  method CanonicalUrl(b: Browser, raw: string) returns (r: Option<string>)
    requires b.Valid()
    ensures r == Canonical(b, raw)
  {
    var parsed := b.parse(raw);
    if parsed.None? || !OnWeb(parsed.value) {
      return None;
    }
    var url := parsed.value;
    var ps := b.Params(url);
    var tracking := Tracking(ps);
    WithoutNone(ps);
    for i := 0 to |tracking|
      invariant ps == Without(b.Params(parsed.value), tracking[..i])
      invariant url == if i == 0 then parsed.value else b.WithParams(parsed.value, ps)
    {
      WithoutMore(b.Params(parsed.value), tracking[..i], tracking[i]);
      assert tracking[..i] + [tracking[i]] == tracking[..i + 1];
      ps := Without(ps, [tracking[i]]);
      url := b.WithParams(url, ps);
    }
    assert tracking[..|tracking|] == tracking;
    WithoutTracking(b.Params(parsed.value), tracking);
    if ps == [] {
      url := url.(query := None);
    }
    return Some(b.write(url));
  }

  /** A canonical URL is its own canonical form. */
  lemma CanonicalTwice(b: Browser, raw: string)
    requires b.Valid() && Canonical(b, raw).Some?
    ensures Canonical(b, Canonical(b, raw).value) == Canonical(b, raw)
  {
    var u := b.parse(raw).value;
    var ps := b.Params(u);
    UntrackedAlready(ps);
    assert b.WithParams(u, []) == u.(query := None);
  }

  /** A link with tracking parameters and the bare link to the same page meet
      exactly when the bare link has no parameters or its query is already
      written as a form writes it: deleting a parameter rewrites the others. */
  lemma TaggedMeetsBare(b: Browser, bare: string, tagged: string)
    requires b.Valid() && b.parse(bare).Some? && OnWeb(b.parse(bare).value) && b.parse(tagged).Some?
    requires b.parse(tagged).value.(query := None) == b.parse(bare).value.(query := None)
    requires Tracking(b.Params(b.parse(bare).value)) == [] && Tracking(b.Params(b.parse(tagged).value)) != []
    requires Untracked(b.Params(b.parse(tagged).value)) == b.Params(b.parse(bare).value)
    ensures var u := b.parse(bare).value;
            Canonical(b, bare) == Canonical(b, tagged)
            <==> b.Params(u) == [] || u.query == Some(b.form(b.Params(u)))
  {
    var u, t := b.parse(bare).value, b.parse(tagged).value;
    assert b.WithParams(t, b.Params(u)) == b.WithParams(u, b.Params(u));
  }

  lemma TaggedParams()
    ensures var q, source := Param("q", "b c"), Param("utm_source", "chatgpt.com");
            && Tracking([q, source]) == [source.name] && Untracked([q, source]) == [q]
            && Tracking([q]) == [] && Untracked([q]) == [q]
  {
    var q, source := Param("q", "b c"), Param("utm_source", "chatgpt.com");
    assert Tracks(source.name) && !Tracks(q.name);
    assert [q, source][1..] == [source];
    assert Tracking([source]) == [source.name] && Untracked([source]) == [];
    UntrackedAlready([q]);
  }

  /** The tagged and the bare link to one page, apart. */
  lemma TaggedStaysApart(b: Browser)
    requires b.Valid()
    requires b.parse("https://x.example/?q=b%20c") == Some(Url("https:", "//x.example/", Some("q=b%20c"), None))
    requires b.parse("https://x.example/?q=b%20c&utm_source=chatgpt.com")
          == Some(Url("https:", "//x.example/", Some("q=b%20c&utm_source=chatgpt.com"), None))
    requires b.params("q=b%20c") == [Param("q", "b c")] && b.form([Param("q", "b c")]) == "q=b+c"
    requires b.params("q=b%20c&utm_source=chatgpt.com") == [Param("q", "b c"), Param("utm_source", "chatgpt.com")]
    ensures Canonical(b, "https://x.example/?q=b%20c")
         != Canonical(b, "https://x.example/?q=b%20c&utm_source=chatgpt.com")
  {
    TaggedParams();
    TaggedMeetsBare(b, "https://x.example/?q=b%20c", "https://x.example/?q=b%20c&utm_source=chatgpt.com");
    assert "q=b%20c"[3] != "q=b+c"[3];
  }

  /** `u` is the canonical form of one of `urls`. */
  ghost predicate IsCanonicalOf(b: Browser, urls: seq<string>, u: string) {
    exists raw :: raw in urls && Canonical(b, raw) == Some(u)
  }

  method Canonicalise(b: Browser, urls: seq<string>) returns (r: seq<string>)
    requires b.Valid()
    ensures Ascending(r) && forall u :: u in r <==> IsCanonicalOf(b, urls, u)
  {
    var out := [];
    for i := 0 to |urls|
      invariant forall u :: u in out <==> IsCanonicalOf(b, urls[..i], u)
    {
      var canonical := CanonicalUrl(b, urls[i]);
      assert urls[..i + 1] == urls[..i] + [urls[i]];
      if canonical.Some? {
        out := out + [canonical.value];
      }
    }
    assert urls[..|urls|] == urls;
    r := Distinct(Sorted(out));
    assert forall u :: u in out <==> u in multiset(Sorted(out));
  }

  /** Each of an ordered sequence once: what differs from the one before it. */
  method Distinct(sorted: seq<string>) returns (r: seq<string>)
    requires Ordered(sorted)
    ensures Ascending(r) && forall u :: u in r <==> u in sorted
  {
    r := [];
    for i := 0 to |sorted|
      invariant Ascending(r) && forall u :: u in r <==> u in sorted[..i]
      invariant if i == 0 then r == [] else r != [] && r[|r| - 1] == sorted[i - 1]
    {
      assert sorted[..i + 1] == sorted[..i] + [sorted[i]];
      if i == 0 || sorted[i] != sorted[i - 1] {
        assert i > 0 ==> Below(sorted[i - 1], sorted[i]);
        KeptAbove(r, sorted[i]);
        r := r + [sorted[i]];
      }
    }
    assert sorted[..|sorted|] == sorted;
  }

  lemma KeptAbove(r: seq<string>, url: string)
    requires Ascending(r) && (r != [] ==> Below(r[|r| - 1], url))
    ensures Ascending(r + [url])
  {
    forall i | 0 <= i < |r| ensures Below(r[i], url) {
      if i < |r| - 1 {
        BelowThrough(r[i], r[|r| - 1], url);
      }
    }
  }

  // ----- What a frame names -----

  /** What `own` reads of `v` and of everything in it, in the order the harvester goes. */
  function Gathered(own: Json -> seq<string>, v: Json): seq<string>
    decreases v, Children(v) + 1
  {
    own(v) + GatheredFrom(own, v, 0)
  }

  function GatheredFrom(own: Json -> seq<string>, v: Json, i: nat): seq<string>
    requires i <= Children(v)
    decreases v, Children(v) - i
  {
    if i == Children(v) then [] else Gathered(own, Child(v, i)) + GatheredFrom(own, v, i + 1)
  }

  /** The string under `key`, if it is one. */
  function Text(v: Json, key: string): seq<string> {
    match Field(v, key)
    case Some(Str(text)) => [text]
    case _ => []
  }

  /** The array under `key`, or none. */
  function List(v: Json, key: string): seq<Json> {
    match Field(v, key)
    case Some(Arr(items)) => items
    case _ => []
  }

  function Urls(items: seq<Json>): seq<string> {
    if items == [] then [] else Urls(items[..|items| - 1]) + Text(items[|items| - 1], "url")
  }

  function ItemUrl(item: Json): seq<string> {
    Text(item, "url") + Urls(List(item, "supporting_websites"))
  }

  function ItemUrls(items: seq<Json>): seq<string> {
    if items == [] then []
    else ItemUrls(items[..|items| - 1]) + ItemUrl(items[|items| - 1])
  }

  function Shown(v: Json): seq<string> {
    Urls(List(v, "entries"))
  }

  function Cited(v: Json): seq<string> {
    ItemUrls(List(v, "items")) + Urls(List(v, "sources"))
  }

  function Ids(v: Json): seq<string> {
    Text(v, "conversation_id")
  }

  function First(texts: seq<string>): Option<string> {
    if texts == [] then None else Some(texts[0])
  }

  lemma UrlsNext(items: seq<Json>, i: nat)
    requires i < |items|
    ensures Urls(items[..i + 1]) == Urls(items[..i]) + Text(items[i], "url")
    ensures ItemUrls(items[..i + 1]) == ItemUrls(items[..i]) + ItemUrl(items[i])
  {
    assert items[..i + 1][..i] == items[..i];
  }

  lemma Associate(x: seq<string>, y: seq<string>, z: seq<string>)
    ensures x + y + z == x + (y + z)
  {
  }

  lemma GatheredNext(own: Json -> seq<string>, before: seq<string>, v: Json, i: nat)
    requires i < Children(v)
    ensures before + GatheredFrom(own, v, i) == before + Gathered(own, Child(v, i)) + GatheredFrom(own, v, i + 1)
  {
    Associate(before, Gathered(own, Child(v, i)), GatheredFrom(own, v, i + 1));
  }

  /** A list that urls are pushed onto. */
  class Out {
    var urls: seq<string>

    constructor ()
      ensures urls == []
    {
      urls := [];
    }

    method PushUrl(item: Json)
      modifies this
      ensures urls == old(urls) + Text(item, "url")
    {
      urls := urls + Text(item, "url");
    }

    method PushUrls(items: seq<Json>)
      modifies this
      ensures urls == old(urls) + Urls(items)
    {
      for i := 0 to |items|
        invariant urls == old(urls) + Urls(items[..i])
      {
        UrlsNext(items, i);
        Associate(old(urls), Urls(items[..i]), Text(items[i], "url"));
        PushUrl(items[i]);
      }
      assert items[..|items|] == items;
    }

    method PushItem(item: Json)
      modifies this
      ensures urls == old(urls) + ItemUrl(item)
    {
      Associate(urls, Text(item, "url"), Urls(List(item, "supporting_websites")));
      PushUrl(item);
      PushUrls(List(item, "supporting_websites"));
    }

    method PushItems(items: seq<Json>)
      modifies this
      ensures urls == old(urls) + ItemUrls(items)
    {
      for i := 0 to |items|
        invariant urls == old(urls) + ItemUrls(items[..i])
      {
        UrlsNext(items, i);
        Associate(old(urls), ItemUrls(items[..i]), ItemUrl(items[i]));
        PushItem(items[i]);
      }
      assert items[..|items|] == items;
    }

    method PushCited(v: Json)
      modifies this
      ensures urls == old(urls) + Cited(v)
    {
      Associate(urls, ItemUrls(List(v, "items")), Urls(List(v, "sources")));
      PushItems(List(v, "items"));
      PushUrls(List(v, "sources"));
    }
  }

  /** One frame: what it names is pushed onto the two lists; the first id it carries is answered. */
  method Harvest(v: Json, search: Out, cited: Out) returns (id: Option<string>)
    requires search != cited
    modifies search, cited
    ensures search.urls == old(search.urls) + Gathered(Shown, v)
    ensures cited.urls == old(cited.urls) + Gathered(Cited, v)
    ensures id == First(Gathered(Ids, v))
    decreases v, 1
  {
    id := First(Ids(v));
    Associate(search.urls, Shown(v), GatheredFrom(Shown, v, 0));
    Associate(cited.urls, Cited(v), GatheredFrom(Cited, v, 0));
    search.PushUrls(List(v, "entries"));
    cited.PushCited(v);
    var below := HarvestBelow(v, search, cited);
    if id.None? {
      id := below;
    }
  }

  method HarvestBelow(v: Json, search: Out, cited: Out) returns (id: Option<string>)
    requires search != cited
    modifies search, cited
    ensures search.urls == old(search.urls) + GatheredFrom(Shown, v, 0)
    ensures cited.urls == old(cited.urls) + GatheredFrom(Cited, v, 0)
    ensures id == First(GatheredFrom(Ids, v, 0))
    decreases v, 0
  {
    hide Gathered, GatheredFrom;
    id := None;
    for i := 0 to Children(v)
      invariant search.urls + GatheredFrom(Shown, v, i) == old(search.urls) + GatheredFrom(Shown, v, 0)
      invariant cited.urls + GatheredFrom(Cited, v, i) == old(cited.urls) + GatheredFrom(Cited, v, 0)
      invariant id.None? ==> First(GatheredFrom(Ids, v, i)) == First(GatheredFrom(Ids, v, 0))
      invariant id.Some? ==> id == First(GatheredFrom(Ids, v, 0))
    {
      GatheredNext(Shown, search.urls, v, i);
      GatheredNext(Cited, cited.urls, v, i);
      FirstNext(v, i);
      var below := Harvest(Child(v, i), search, cited);
      if id.None? && below.Some? {
        id := below;
      }
    }
    NoneGathered(Shown, v);
    NoneGathered(Cited, v);
    NoneGathered(Ids, v);
  }

  lemma NoneGathered(own: Json -> seq<string>, v: Json)
    ensures GatheredFrom(own, v, Children(v)) == []
  {
  }

  lemma FirstNext(v: Json, i: nat)
    requires i < Children(v)
    ensures First(GatheredFrom(Ids, v, i))
         == (var here := First(Gathered(Ids, Child(v, i)));
             if here.Some? then here else First(GatheredFrom(Ids, v, i + 1)))
  {
  }

  // ----- What names a source -----

  /** The array under `key` holds an object whose `url` is this text. */
  ghost predicate Lists(v: Json, key: string, url: string) {
    exists items, i :: Field(v, key) == Some(Arr(items)) && 0 <= i < |items| && Field(items[i], "url") == Some(Str(url))
  }

  /** An item names a source by its own `url`, or by those of its supporting websites. */
  ghost predicate Supports(v: Json, url: string) {
    exists items, i :: Field(v, "items") == Some(Arr(items)) && 0 <= i < |items| && Lists(items[i], "supporting_websites", url)
  }

  lemma {:induction false} UrlsListed(items: seq<Json>, url: string)
    ensures url in Urls(items) <==> exists i :: 0 <= i < |items| && Field(items[i], "url") == Some(Str(url))
  {
    if items != [] {
      var front, last := items[..|items| - 1], items[|items| - 1];
      UrlsListed(front, url);
      assert forall i | 0 <= i < |front| :: front[i] == items[i];
      assert url in Text(last, "url") <==> Field(last, "url") == Some(Str(url));
    }
  }

  lemma ListedExactly(v: Json, key: string, url: string)
    ensures url in Urls(List(v, key)) <==> Lists(v, key, url)
  {
    UrlsListed(List(v, key), url);
  }

  /** An item names `url` itself or by its supporting websites. */
  ghost predicate NamesUrl(item: Json, url: string) {
    Field(item, "url") == Some(Str(url)) || Lists(item, "supporting_websites", url)
  }

  lemma ItemListed(item: Json, url: string)
    ensures url in ItemUrl(item) <==> NamesUrl(item, url)
  {
    ListedExactly(item, "supporting_websites", url);
    assert url in Text(item, "url") <==> Field(item, "url") == Some(Str(url));
    hide Urls, Lists, Field, List, Text;
  }

  lemma {:induction false} ItemsListed(items: seq<Json>, url: string)
    ensures url in ItemUrls(items) <==> exists i :: 0 <= i < |items| && NamesUrl(items[i], url)
  {
    hide NamesUrl, ItemUrl;
    if items != [] {
      var front, last := items[..|items| - 1], items[|items| - 1];
      ItemsListed(front, url);
      ItemListed(last, url);
      assert forall i | 0 <= i < |front| :: front[i] == items[i];
    }
  }

  /** What is shown at a place are the urls of its entries. */
  lemma ShownExactly(v: Json, url: string)
    ensures url in Shown(v) <==> Lists(v, "entries", url)
  {
    ListedExactly(v, "entries", url);
  }

  /** What is cited at a place are the urls of its items, of their supporting websites, and of its sources. */
  lemma CitedExactly(v: Json, url: string)
    ensures url in Cited(v) <==> Lists(v, "items", url) || Supports(v, url) || Lists(v, "sources", url)
  {
    ListedExactly(v, "sources", url);
    ItemsListed(List(v, "items"), url);
    ItemsName(v, url);
    hide Urls, ItemUrls, Lists, Supports, List, NamesUrl;
  }

  lemma ItemsName(v: Json, url: string)
    ensures (exists i :: 0 <= i < |List(v, "items")| && NamesUrl(List(v, "items")[i], url))
       <==> Lists(v, "items", url) || Supports(v, url)
  {
    hide Field;
    var items := List(v, "items");
    if i :| 0 <= i < |items| && NamesUrl(items[i], url) {
      assert Field(v, "items") == Some(Arr(items));
    }
  }

  /** The id at a place is the text of its `conversation_id`. */
  lemma IdsExactly(v: Json, id: string)
    ensures Ids(v) == [id] <==> Field(v, "conversation_id") == Some(Str(id))
    ensures Ids(v) == [] <==> !exists text :: Field(v, "conversation_id") == Some(Str(text))
  {
  }

  // ----- The places that name a source -----

  /** `url` is read at a place within `v`. */
  ghost predicate NamedIn(own: Json -> seq<string>, v: Json, url: string) {
    exists path :: HasPlace(v, path) && url in own(Place(v, path))
  }

  lemma {:induction false} GatheredIsNamed(own: Json -> seq<string>, v: Json, url: string)
    ensures url in Gathered(own, v) <==> NamedIn(own, v, url)
    decreases v, Children(v) + 1
  {
    GatheredFromIsNamed(own, v, 0, url);
    NamedHereOrBelow(own, v, url);
  }

  /** A place is the value itself, or within a child. */
  lemma NamedHereOrBelow(own: Json -> seq<string>, v: Json, url: string)
    ensures NamedIn(own, v, url) <==> url in own(v) || NamedFrom(own, v, 0, url)
  {
    if NamedIn(own, v, url) {
      var path :| HasPlace(v, path) && url in own(Place(v, path));
      if path != [] {
        assert HasPlace(Child(v, path[0]), path[1..]);
        assert NamedIn(own, Child(v, path[0]), url);
      }
    }
    if NamedFrom(own, v, 0, url) {
      var i :| 0 <= i < Children(v) && NamedIn(own, Child(v, i), url);
      NamedBelow(own, v, i, url);
    }
    assert HasPlace(v, []) && Place(v, []) == v;
  }

  lemma NamedBelow(own: Json -> seq<string>, v: Json, i: nat, url: string)
    requires i < Children(v)
    ensures NamedIn(own, Child(v, i), url) ==> NamedIn(own, v, url)
  {
    if NamedIn(own, Child(v, i), url) {
      var path :| HasPlace(Child(v, i), path) && url in own(Place(Child(v, i), path));
      assert ([i] + path)[1..] == path;
      assert HasPlace(v, [i] + path);
    }
  }

  /** `url` is read within a child of `v` from the `i`th on. */
  ghost predicate NamedFrom(own: Json -> seq<string>, v: Json, i: nat, url: string) {
    exists j :: i <= j < Children(v) && NamedIn(own, Child(v, j), url)
  }

  lemma NamedFromNext(own: Json -> seq<string>, v: Json, i: nat, url: string)
    requires i < Children(v)
    ensures NamedFrom(own, v, i, url) <==> NamedIn(own, Child(v, i), url) || NamedFrom(own, v, i + 1, url)
  {
    hide NamedIn;
    if NamedFrom(own, v, i, url) {
      var j :| i <= j < Children(v) && NamedIn(own, Child(v, j), url);
      assert j != i ==> NamedFrom(own, v, i + 1, url);
    }
  }

  lemma {:induction false} GatheredFromIsNamed(own: Json -> seq<string>, v: Json, i: nat, url: string)
    requires i <= Children(v)
    ensures url in GatheredFrom(own, v, i) <==> NamedFrom(own, v, i, url)
    decreases v, Children(v) - i
  {
    hide NamedIn;
    if i < Children(v) {
      GatheredIsNamed(own, Child(v, i), url);
      GatheredFromIsNamed(own, v, i + 1, url);
      NamedFromNext(own, v, i, url);
      assert url in GatheredFrom(own, v, i) <==> url in Gathered(own, Child(v, i)) || url in GatheredFrom(own, v, i + 1);
    } else {
      assert GatheredFrom(own, v, i) == [];
    }
  }

  /** Whether the harvester comes to `q` before `p`. */
  predicate Earlier(q: seq<nat>, p: seq<nat>) {
    p != [] && (q == [] || q[0] < p[0] || (q[0] == p[0] && Earlier(q[1..], p[1..])))
  }

  /** `text` is read at `path`, and nothing is at any place before it. */
  ghost predicate EarliestAt(own: Json -> seq<string>, v: Json, path: seq<nat>, text: string) {
    && HasPlace(v, path) && First(own(Place(v, path))) == Some(text)
    && forall q | HasPlace(v, q) && Earlier(q, path) :: own(Place(v, q)) == []
  }

  /** The first of what is gathered is what the earliest place holds. */
  lemma {:induction false} FirstIsEarliest(own: Json -> seq<string>, v: Json) returns (path: seq<nat>)
    requires Gathered(own, v) != []
    ensures EarliestAt(own, v, path, Gathered(own, v)[0])
    decreases v
  {
    path := [];
    if own(v) == [] {
      var k := FirstChild(own, v, 0);
      var rest := FirstIsEarliest(own, Child(v, k));
      path := [k] + rest;
      assert path[1..] == rest;
      forall q | HasPlace(v, q) && Earlier(q, path) ensures own(Place(v, q)) == [] {
        if q != [] && q[0] < k {
          NothingAt(own, Child(v, q[0]), q[1..]);
        }
      }
    }
  }

  lemma NothingAt(own: Json -> seq<string>, v: Json, path: seq<nat>)
    requires Gathered(own, v) == [] && HasPlace(v, path)
    ensures own(Place(v, path)) == []
  {
    var here := own(Place(v, path));
    if here != [] {
      GatheredIsNamed(own, v, here[0]);
    }
  }

  lemma {:induction false} FirstChild(own: Json -> seq<string>, v: Json, i: nat) returns (k: nat)
    requires i <= Children(v) && GatheredFrom(own, v, i) != []
    ensures i <= k < Children(v) && Gathered(own, Child(v, k)) != []
    ensures Gathered(own, Child(v, k))[0] == GatheredFrom(own, v, i)[0]
    ensures forall j | i <= j < k :: Gathered(own, Child(v, j)) == []
    decreases Children(v) - i
  {
    k := i;
    if Gathered(own, Child(v, i)) == [] {
      k := FirstChild(own, v, i + 1);
    }
  }

  // ----- The stream -----

  function Lines(text: string): (r: seq<string>)
    ensures r != []
    decreases |text|
  {
    if text == [] then [[]]
    else if text[0] == '\n' then [[]] + Lines(text[1..])
    else if text[0] == '\r' && |text| > 1 && text[1] == '\n' then [[]] + Lines(text[2..])
    else var r := Lines(text[1..]); [[text[0]] + r[0]] + r[1..]
  }

  predicate IsAd(v: Json) {
    Text(v, "type") == ["ads"]
  }

  /** The frame a line carries, unless it is an advertisement. `read` passes over white space at both ends. */
  function Frame(read: string -> Option<Json>, line: string): (r: seq<Json>)
    ensures |r| <= 1
  {
    if !("data:" <= line) then []
    else
      match read(line[5..])
      case Some(v) => if IsAd(v) then [] else [v]
      case None => []
  }

  function Frames(read: string -> Option<Json>, lines: seq<string>): seq<Json> {
    if lines == [] then [] else Frames(read, lines[..|lines| - 1]) + Frame(read, lines[|lines| - 1])
  }

  lemma {:induction false} GatheredFromMore(own: Json -> seq<string>, frames: seq<Json>, v: Json, i: nat)
    requires i <= |frames|
    ensures GatheredFrom(own, Arr(frames + [v]), i) == GatheredFrom(own, Arr(frames), i) + Gathered(own, v)
    decreases |frames| - i
  {
    var more := Arr(frames + [v]);
    if i < |frames| {
      GatheredFromMore(own, frames, v, i + 1);
      assert Child(more, i) == Child(Arr(frames), i);
      Associate(Gathered(own, Child(more, i)), GatheredFrom(own, Arr(frames), i + 1), Gathered(own, v));
    } else {
      assert Child(more, i) == v && GatheredFrom(own, more, i + 1) == [];
    }
  }

  lemma GatheredMore(own: Json -> seq<string>, frames: seq<Json>, v: Json)
    requires own(Arr(frames)) == own(Arr(frames + [v])) == []
    ensures Gathered(own, Arr(frames + [v])) == Gathered(own, Arr(frames)) + Gathered(own, v)
  {
    GatheredFromMore(own, frames, v, 0);
  }

  lemma FramesNext(read: string -> Option<Json>, lines: seq<string>, i: nat)
    requires i < |lines|
    ensures Frames(read, lines[..i + 1]) == Frames(read, lines[..i]) + Frame(read, lines[i])
  {
    assert lines[..i + 1][..i] == lines[..i];
  }

  /** A frame is what a line carries after `data:`, when that reads and is no advertisement. */
  ghost predicate Carries(read: string -> Option<Json>, line: string, v: Json) {
    exists rest: string :: line == "data:" + rest && read(rest) == Some(v) && Field(v, "type") != Some(Str("ads"))
  }

  lemma FrameCarried(read: string -> Option<Json>, line: string, v: Json)
    ensures v in Frame(read, line) <==> Carries(read, line, v)
  {
    assert "data:" <= line ==> line == "data:" + line[5..];
    if Carries(read, line, v) {
      var rest: string :| line == "data:" + rest && read(rest) == Some(v) && Field(v, "type") != Some(Str("ads"));
      assert line[5..] == rest;
    }
  }

  /** The frames of a stream are those its lines carry, */
  lemma {:induction false} FramesCarried(read: string -> Option<Json>, lines: seq<string>, v: Json)
    ensures v in Frames(read, lines) <==> exists i :: 0 <= i < |lines| && Carries(read, lines[i], v)
  {
    hide Carries, Frame;
    if lines != [] {
      var front, last := lines[..|lines| - 1], lines[|lines| - 1];
      FramesCarried(read, front, v);
      FrameCarried(read, last, v);
      assert forall i | 0 <= i < |front| :: front[i] == lines[i];
    }
  }

  /** in the order of the lines. */
  lemma {:induction false} FramesJoined(read: string -> Option<Json>, x: seq<string>, y: seq<string>)
    ensures Frames(read, x + y) == Frames(read, x) + Frames(read, y)
  {
    hide Frame;
    if y == [] {
      assert x + y == x;
    } else {
      assert (x + y)[..|x + y| - 1] == x + y[..|y| - 1];
      FramesJoined(read, x, y[..|y| - 1]);
    }
  }

  /** A line ends at a newline, and a carriage return just before it is no part of it. */
  lemma {:induction false} LinesAround(line: string, rest: string)
    requires '\n' !in line && (line != "" ==> line[|line| - 1] != '\r')
    ensures Lines(line + "\n" + rest) == Lines(line + "\r\n" + rest) == [line] + Lines(rest)
    ensures Lines(line) == [line]
  {
    var x, y := line + "\n" + rest, line + "\r\n" + rest;
    if line == "" {
      assert x[1..] == rest && y[2..] == rest;
    } else {
      assert x[1..] == line[1..] + "\n" + rest && y[1..] == line[1..] + "\r\n" + rest;
      assert line[0] in line;
      LinesAround(line[1..], rest);
      assert [line[0]] + line[1..] == line;
    }
  }

  datatype Stream = Stream(conversationId: Option<string>, retrieved: seq<string>, cited: seq<string>)

  lemma GatheredFrame(own: Json -> seq<string>, frames: seq<Json>, frame: seq<Json>)
    requires |frame| <= 1 && own(Arr(frames)) == own(Arr(frames + frame)) == []
    ensures frame == [] ==> Gathered(own, Arr(frames + frame)) == Gathered(own, Arr(frames))
    ensures frame != [] ==> Gathered(own, Arr(frames + frame)) == Gathered(own, Arr(frames)) + Gathered(own, frame[0])
  {
    if frame == [] {
      assert frames + frame == frames;
    } else {
      assert frame == [frame[0]];
      GatheredMore(own, frames, frame[0]);
    }
  }

  lemma ArrayNamesNothing(items: seq<Json>)
    ensures Shown(Arr(items)) == Cited(Arr(items)) == Ids(Arr(items)) == []
  {
  }

  lemma FirstFrame(frames: seq<Json>, frame: seq<Json>)
    requires |frame| <= 1
    ensures First(Gathered(Ids, Arr(frames + frame)))
         == (var before := First(Gathered(Ids, Arr(frames)));
             if before.Some? || frame == [] then before else First(Gathered(Ids, frame[0])))
  {
    ArrayNamesNothing(frames);
    ArrayNamesNothing(frames + frame);
    GatheredFrame(Ids, frames, frame);
  }

  /** One line of the stream. */
  method HarvestLine(read: string -> Option<Json>, line: string, search: Out, cited: Out) returns (id: Option<string>)
    requires search != cited
    modifies search, cited
    ensures var frame := Frame(read, line);
            if frame == [] then search.urls == old(search.urls) && cited.urls == old(cited.urls) && id == None
            else && search.urls == old(search.urls) + Gathered(Shown, frame[0])
                 && cited.urls == old(cited.urls) + Gathered(Cited, frame[0])
                 && id == First(Gathered(Ids, frame[0]))
  {
    id := None;
    if "data:" <= line {
      var value := read(line[5..]);
      if value.Some? && !IsAd(value.value) {
        id := Harvest(value.value, search, cited);
      }
    }
  }

  /** Every frame read, one line at a time. */
  method HarvestLines(read: string -> Option<Json>, lines: seq<string>, search: Out, cited: Out)
    returns (conversationId: Option<string>)
    requires search != cited && search.urls == cited.urls == []
    modifies search, cited
    ensures search.urls == Gathered(Shown, Arr(Frames(read, lines)))
    ensures cited.urls == Gathered(Cited, Arr(Frames(read, lines)))
    ensures conversationId == First(Gathered(Ids, Arr(Frames(read, lines))))
  {
    conversationId := None;
    for i := 0 to |lines|
      invariant search.urls == Gathered(Shown, Arr(Frames(read, lines[..i])))
      invariant cited.urls == Gathered(Cited, Arr(Frames(read, lines[..i])))
      invariant conversationId == First(Gathered(Ids, Arr(Frames(read, lines[..i]))))
    {
      FramesNext(read, lines, i);
      ArrayNamesNothing(Frames(read, lines[..i]));
      ArrayNamesNothing(Frames(read, lines[..i]) + Frame(read, lines[i]));
      GatheredFrame(Shown, Frames(read, lines[..i]), Frame(read, lines[i]));
      GatheredFrame(Cited, Frames(read, lines[..i]), Frame(read, lines[i]));
      FirstFrame(Frames(read, lines[..i]), Frame(read, lines[i]));
      var id := HarvestLine(read, lines[i], search, cited);
      if conversationId.None? && id.Some? {
        conversationId := id;
      }
    }
    assert lines[..|lines|] == lines;
  }

  /** `u` is the canonical form of a URL read at some place of some frame. */
  ghost predicate Sourced(b: Browser, own: Json -> seq<string>, frames: seq<Json>, u: string) {
    exists raw :: NamedIn(own, Arr(frames), raw) && Canonical(b, raw) == Some(u)
  }

  lemma CanonicalIsSourced(b: Browser, own: Json -> seq<string>, frames: seq<Json>, u: string)
    ensures IsCanonicalOf(b, Gathered(own, Arr(frames)), u) <==> Sourced(b, own, frames, u)
  {
    forall raw ensures raw in Gathered(own, Arr(frames)) <==> NamedIn(own, Arr(frames), raw) {
      GatheredIsNamed(own, Arr(frames), raw);
    }
  }

  /** A canonical list, made canonical again with another, adds exactly itself. */
  lemma CanonicalOfBoth(b: Browser, search: seq<string>, cited: seq<string>, canonical: seq<string>, u: string)
    requires b.Valid() && forall c :: c in canonical <==> IsCanonicalOf(b, cited, c)
    ensures IsCanonicalOf(b, search + canonical, u) <==> IsCanonicalOf(b, search, u) || IsCanonicalOf(b, cited, u)
  {
    forall c | c in canonical ensures Canonical(b, c) == Some(c) {
      var raw :| raw in cited && Canonical(b, raw) == Some(c);
      CanonicalTwice(b, raw);
    }
    if IsCanonicalOf(b, search, u) {
      var raw :| raw in search && Canonical(b, raw) == Some(u);
      assert raw in search + canonical;
    }
    if IsCanonicalOf(b, cited, u) {
      assert u in search + canonical;
    }
  }

  /** A stream's sources: strictly ascending, and exactly the canonical URLs at
      the places that name one in a frame that is no advertisement; what is
      cited was retrieved. */
  method ParseSse(b: Browser, read: string -> Option<Json>, rawText: Option<string>) returns (r: Stream)
    requires b.Valid()
    ensures Ascending(r.cited) && Ascending(r.retrieved)
    ensures rawText.None? ==> r == Stream(None, [], [])
    ensures rawText.Some? ==>
              var frames := Frames(read, Lines(rawText.value));
              && r.conversationId == First(Gathered(Ids, Arr(frames)))
              && (forall u :: u in r.cited <==> Sourced(b, Cited, frames, u))
              && (forall u :: u in r.retrieved <==> Sourced(b, Shown, frames, u) || Sourced(b, Cited, frames, u))
    ensures forall u :: u in r.cited ==> u in r.retrieved
  {
    if rawText.None? {
      return Stream(None, [], []);
    }
    var search := new Out();
    var cited := new Out();
    var id := HarvestLines(read, Lines(rawText.value), search, cited);
    var citedCanon := Canonicalise(b, cited.urls);
    var retrieved := Canonicalise(b, search.urls + citedCanon);
    ghost var frames := Frames(read, Lines(rawText.value));
    forall u
      ensures u in citedCanon <==> Sourced(b, Cited, frames, u)
      ensures u in retrieved <==> Sourced(b, Shown, frames, u) || Sourced(b, Cited, frames, u)
    {
      CanonicalIsSourced(b, Cited, frames, u);
      CanonicalIsSourced(b, Shown, frames, u);
      CanonicalOfBoth(b, search.urls, cited.urls, citedCanon, u);
    }
    return Stream(id, retrieved, citedCanon);
  }
}
