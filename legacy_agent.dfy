/**
 * The standalone Dribbble agent (`dribble_scraper_agent.py`): accepting the search keywords a
 * language model proposes, turning the Dribbble scraping API's records into portfolios, the loop
 * that picks designers query by query, and the choice of works the portfolio analyzer looks at.
 * Every service the agent calls (the chat completions API, the RapidAPI Dribbble scraper, the
 * social-link extractor, image downloads) and `json.loads` itself are parameters.
 */
module LegacyAgent {
  import opened Wrappers
  import opened Text
  import opened Json
  import opened Recovery
  import Scraper
  import Analyzer
  import DevAnalyzer

  // ---------------------------------------------------------------------------------------
  // KeywordGenerator.generate_search_keywords

  /**
   * What the fallback hands to `json.loads` once the reply itself does not parse: the block
   * after "```json", else the block after "```", else the match of `\[.*?\]`, else the whole
   * reply stripped. Unlike the backend's cascades, the first of these that applies is the only
   * one tried.
   */
  function KeywordPiece(reply: string): string {
    if Contains(reply, JsonMarker) then Fenced(reply, JsonMarker).value
    else if Contains(reply, Fence) then Fenced(reply, Fence).value
    else
      match LazyArray(reply)
      case Some(m) => m
      case None => Strip(reply)
  }

  /** The value the reply yields: the reply parsed as it is, else its piece parsed. */
  function ParseKeywords(reply: string, loads: Loads): Option<Json> {
    match loads(reply)
    case Some(v) => Some(v)
    case None => loads(KeywordPiece(reply))
  }

  /** The only shape the generator accepts: a list of exactly five values. */
  predicate FiveKeywords(v: Json) {
    v.JArr? && |v.items| == 5
  }

  /**
   * `generate_search_keywords`. `reply` is the completion's message content; `None` stands for
   * a failed request, a status other than 200, and a response whose content cannot be read
   * (all of which return the original queries).
   */
  function GenerateKeywords(queries: seq<Json>, reply: Option<string>, loads: Loads): (r: seq<Json>)
    ensures r == queries || |r| == 5
    ensures r != queries ==> reply.Some? && ParseKeywords(reply.value, loads) == Some(JArr(r))
    ensures reply.Some? && ParseKeywords(reply.value, loads).Some? && FiveKeywords(ParseKeywords(reply.value, loads).value)
      ==> r == ParseKeywords(reply.value, loads).value.items
  {
    match reply
    case None => queries
    case Some(text) =>
      match ParseKeywords(text, loads)
      case Some(JArr(items)) => if |items| == 5 then items else queries
      case _ => queries
  }

  /**
   * A reply that is not JSON itself but holds a "```json" block (the only backquotes before the
   * block's end being the marker and the closing fence) yields the five keywords in that block.
   */
  lemma KeywordsFromJsonFence(queries: seq<Json>, reply: string, loads: Loads, i: nat, n: nat, keywords: seq<Json>)
    requires loads(reply).None?
    requires OccursAt(reply, JsonMarker, i) && OccursAt(reply, Fence, i + |JsonMarker| + n)
    requires '`' !in reply[..i] && '`' !in reply[i + |JsonMarker|..i + |JsonMarker| + n]
    requires loads(Strip(reply[i + |JsonMarker|..i + |JsonMarker| + n])) == Some(JArr(keywords))
    requires |keywords| == 5
    ensures GenerateKeywords(queries, Some(reply), loads) == keywords
  {
    FencedBlock(reply, JsonMarker, i, n);
    assert Contains(reply, JsonMarker);
  }

  /**
   * The same for a plain "```" block when "```json" occurs nowhere in the reply: its stripped
   * content is what is parsed.
   */
  lemma KeywordsFromPlainFence(queries: seq<Json>, reply: string, loads: Loads, i: nat, n: nat, keywords: seq<Json>)
    requires loads(reply).None? && !Contains(reply, JsonMarker)
    requires OccursAt(reply, Fence, i) && OccursAt(reply, Fence, i + |Fence| + n)
    requires '`' !in reply[..i] && '`' !in reply[i + |Fence|..i + |Fence| + n]
    requires loads(Strip(reply[i + |Fence|..i + |Fence| + n])) == Some(JArr(keywords))
    requires |keywords| == 5
    ensures GenerateKeywords(queries, Some(reply), loads) == keywords
  {
    FencedBlock(reply, Fence, i, n);
    assert Contains(reply, Fence);
  }

  /**
   * A reply without backquotes that is not JSON itself is read through its first bracketed
   * part: the text from the first '[' to the first ']' after it.
   */
  lemma KeywordsFromBrackets(queries: seq<Json>, pre: string, inner: string, post: string, loads: Loads, keywords: seq<Json>)
    requires '[' !in pre && ']' !in inner
    requires '`' !in pre + "[" + inner + "]" + post
    requires loads(pre + "[" + inner + "]" + post).None?
    requires loads("[" + inner + "]") == Some(JArr(keywords)) && |keywords| == 5
    ensures GenerateKeywords(queries, Some(pre + "[" + inner + "]" + post), loads) == keywords
  {
    var reply := pre + "[" + inner + "]" + post;
    NoBackquoteNoFence(reply);
    LazyArrayOf(pre, inner, post);
  }

  /** A text without a backquote contains no fence. */
  lemma NoBackquoteNoFence(s: string)
    requires '`' !in s
    ensures !Contains(s, Fence) && !Contains(s, JsonMarker)
  {
    forall i | 0 <= i <= |s| - |Fence| ensures !OccursAt(s, Fence, i) {
      assert s[i..i + |Fence|][0] == s[i];
    }
    forall i | 0 <= i <= |s| - |JsonMarker| ensures !OccursAt(s, JsonMarker, i) {
      assert s[i..i + |JsonMarker|][0] == s[i];
    }
  }

  /** `\[.*?\]` matches the first '[' up to the first ']' that follows it. */
  lemma LazyArrayOf(pre: string, inner: string, post: string)
    requires '[' !in pre && ']' !in inner
    ensures LazyArray(pre + "[" + inner + "]" + post) == Some("[" + inner + "]")
  {
    var text := pre + "[" + inner + "]" + post;
    var i := |pre|;
    var j := |pre| + 1 + |inner|;
    assert forall k | 0 <= k < i :: text[k] == pre[k];
    assert forall k | i < k < j :: text[k] == inner[k - i - 1];
    LazyArrayAt(text, i, j);
    assert text[i..j + 1] == "[" + inner + "]";
  }

  /** The match runs from the first '[' at `i` to the first ']' after it, at `j`. */
  lemma LazyArrayAt(text: string, i: nat, j: nat)
    requires i < j < |text| && text[i] == '[' && text[j] == ']'
    requires forall k | 0 <= k < i :: text[k] != '['
    requires forall k | i < k < j :: text[k] != ']'
    ensures LazyArray(text) == Some(text[i..j + 1])
  {
    IndexOfIs(text, '[', i);
    var rest := text[i..];
    assert forall k | 0 <= k < j - i :: rest[k] == text[i + k];
    IndexOfIs(rest, ']', j - i);
    assert rest[..j - i + 1] == text[i..j + 1];
  }

  /** `r` is the first index of `c` in `s` when `s[r]` is `c` and no `c` precedes it. */
  lemma IndexOfIs(s: string, c: char, r: nat)
    requires r < |s| && s[r] == c && forall k | 0 <= k < r :: s[k] != c
    ensures IndexOf(s, c) == r
  {
  }

  /** The first `c` of `a + b` is in `b` when `a` has none. */
  lemma {:induction false} IndexOfAfter(a: string, b: string, c: char)
    requires c !in a && c in b
    ensures c in a + b && IndexOf(a + b, c) == |a| + IndexOf(b, c)
    decreases |a|
  {
    if a == [] {
      assert a + b == b;
    } else {
      assert (a + b)[1..] == a[1..] + b;
      assert c !in a[1..] by {
        assert forall k | 0 <= k < |a| - 1 :: a[1..][k] == a[k + 1];
      }
      IndexOfAfter(a[1..], b, c);
    }
  }

  // ---------------------------------------------------------------------------------------
  // DribbbleScraper.convert_dribbble_to_portfolio

  /** The `DesignerPortfolio` record; its fields hold whatever the API's records held. */
  datatype Portfolio = Portfolio(
    name: Json,
    username: Json,
    profileImage: Json,
    followersCount: Json,
    followingsCount: Json,
    likesCount: Json,
    location: Json,
    isPro: Json,
    specializations: Json,
    price: Json,
    lastResponds: Json,
    description: Json,
    works: seq<Json>,
    scrapedAt: string,
    socialLinks: seq<Json>)

  const Untitled: Json := JStr("Untitled Shot")
  const NoCount: Json := JStr("0")
  const NotAvailable: Json := JStr("N/A")

  /** A work built from one shot with the source's defaults; `None` when the shot is not a dict. */
  function WorkOf(shot: Json): (r: Option<Json>)
    ensures r.Some? <==> shot.JObj?
  {
    if !shot.JObj? then None
    else
      Some(Obj([
        ("id", Get(shot, "id", JStr("")).value),
        ("title", Get(shot, "title", Untitled).value),
        ("image_url", Get(shot, "image_url", JStr("")).value),
        ("slug", Get(shot, "slug", JStr("")).value),
        ("teaser_videos", Get(shot, "teaser_videos", JObj([])).value)]))
  }

  /** A work's title is the shot's title, or "Untitled Shot" when the shot has none. */
  lemma WorkTitle(shot: Json)
    requires shot.JObj?
    ensures Get(WorkOf(shot).value, "title", JNull)
      == Some(if HasKey(shot, "title") then Lookup(shot.members, "title").value else Untitled)
  {
    GetAt(WorkOf(shot).value, 1, JNull);
  }

  /** The works of `for shot in shots`; `None` when `shots` cannot be iterated or holds a non-dict. */
  function Works(shots: Json): (r: Option<seq<Json>>)
    ensures r.Some? ==> Analyzer.Iterate(shots).Some? && |r.value| == |Analyzer.Iterate(shots).value|
  {
    var items :- Analyzer.Iterate(shots);
    DevAnalyzer.MapAll(items, WorkOf)
  }

  /** The loop appending one work per shot. */
  method ConvertWorks(shots: Json) returns (works: Option<seq<Json>>)
    ensures works == Works(shots)
  {
    var items := Analyzer.Iterate(shots);
    if items.None? {
      return None;
    }
    var xs := items.value;
    var done: seq<Json> := [];
    var i := 0;
    while i < |xs|
      invariant i <= |xs|
      invariant DevAnalyzer.MapAll(xs[..i], WorkOf) == Some(done)
    {
      assert xs[..i + 1][..i] == xs[..i];
      var work := WorkOf(xs[i]);
      if work.None? {
        assert !(forall k | 0 <= k < |xs| :: WorkOf(xs[k]).Some?);
        return None;
      }
      done := done + [work.value];
      i := i + 1;
    }
    assert xs[..|xs|] == xs;
    return Some(done);
  }

  /**
   * `first.get(key, second.get(key, default))`: the first record's value when it has the key,
   * else the second's, else the default.
   */
  function Pick(first: Json, second: Json, key: string, default: Json): (r: Json)
    requires first.JObj? && second.JObj?
    ensures HasKey(first, key) ==> r == Lookup(first.members, key).value
    ensures !HasKey(first, key) && HasKey(second, key) ==> r == Lookup(second.members, key).value
    ensures !HasKey(first, key) && !HasKey(second, key) ==> r == default
  {
    Get(first, key, Get(second, key, default).value).value
  }

  /**
   * `convert_dribbble_to_portfolio(search_info, details, shots, social_links)` with `now` for the
   * formatted clock. `None` is the exception it raises (caught by its caller) when a record is
   * not a dict or a shot is not one.
   */
  function Convert(searchInfo: Json, details: Json, shots: Json, links: seq<Json>, now: string): (r: Option<Portfolio>)
    ensures r.Some? <==> searchInfo.JObj? && details.JObj? && Works(shots).Some?
  {
    if !searchInfo.JObj? || !details.JObj? then None
    else
      var works :- Works(shots);
      var specializations := Get(searchInfo, "specializations", JArr([])).value;
      Some(Portfolio(
        Pick(searchInfo, details, "name", JStr("")),
        Pick(searchInfo, details, "username", JStr("")),
        Pick(searchInfo, details, "profile_image", JStr("")),
        Get(details, "followers_count", NoCount).value,
        Get(details, "followings_count", NoCount).value,
        Get(details, "likes_count", NoCount).value,
        Get(searchInfo, "location", JStr("")).value,
        Get(searchInfo, "is_pro", JBool(false)).value,
        if Truthy(specializations) then specializations else JArr([]),
        Get(searchInfo, "price", NotAvailable).value,
        Get(searchInfo, "last_responds", NotAvailable).value,
        Get(details, "description", NotAvailable).value,
        works,
        now,
        links))
  }

  /**
   * The defaults of a converted portfolio: the identity fields come from the search record when
   * it has the key, else from the details, else ""; counts default to "0"; specializations are
   * a truthy value or []; there is one work per shot; the links and clock are kept.
   */
  lemma ConvertFacts(searchInfo: Json, details: Json, shots: Json, links: seq<Json>, now: string)
    requires Convert(searchInfo, details, shots, links, now).Some?
    ensures var p := Convert(searchInfo, details, shots, links, now).value;
      && (HasKey(searchInfo, "username") ==> p.username == Lookup(searchInfo.members, "username").value)
      && (!HasKey(searchInfo, "name") && !HasKey(details, "name") ==> p.name == JStr(""))
      && (!HasKey(details, "followers_count") ==> p.followersCount == NoCount)
      && (!HasKey(details, "followings_count") ==> p.followingsCount == NoCount)
      && (!HasKey(details, "likes_count") ==> p.likesCount == NoCount)
      && (Truthy(p.specializations) || p.specializations == JArr([]))
      && |p.works| == |Analyzer.Iterate(shots).value|
      && (forall k | 0 <= k < |p.works| :: Some(p.works[k]) == WorkOf(Analyzer.Iterate(shots).value[k]))
      && p.socialLinks == links && p.scrapedAt == now
  {
  }

  /** The step of `convert_dribbble_to_portfolio` that has a loop, written as the source does it. */
  method ConvertPortfolio(searchInfo: Json, details: Json, shots: Json, links: seq<Json>, now: string)
    returns (portfolio: Option<Portfolio>)
    ensures portfolio == Convert(searchInfo, details, shots, links, now)
  {
    var works := ConvertWorks(shots);
    if works.None? || !searchInfo.JObj? || !details.JObj? {
      return None;
    }
    var specializations := Get(searchInfo, "specializations", JArr([])).value;
    if !Truthy(specializations) {
      specializations := JArr([]);
    }
    portfolio := Some(Portfolio(
      Pick(searchInfo, details, "name", JStr("")),
      Pick(searchInfo, details, "username", JStr("")),
      Pick(searchInfo, details, "profile_image", JStr("")),
      Get(details, "followers_count", NoCount).value,
      Get(details, "followings_count", NoCount).value,
      Get(details, "likes_count", NoCount).value,
      Get(searchInfo, "location", JStr("")).value,
      Get(searchInfo, "is_pro", JBool(false)).value,
      specializations,
      Get(searchInfo, "price", NotAvailable).value,
      Get(searchInfo, "last_responds", NotAvailable).value,
      Get(details, "description", NotAvailable).value,
      works.value,
      now,
      links));
  }

  // ---------------------------------------------------------------------------------------
  // DribbbleScraper.run_scraper

  /**
   * The services the loop calls, each keyed by its argument: `search(query)` is the `designers`
   * value of the search response (`[]` for any failure), `links(username)` what
   * `extract_social_links` returns, `details(username)` and `shots(username)` what
   * `get_designer_details` and `get_designer_shots` return, and `now` the formatted clock.
   */
  datatype Services = Services(
    search: Json -> Json,
    links: Json -> seq<Json>,
    details: Json -> Json,
    shots: Json -> Json,
    now: string)

  /**
   * The designers the loop walks for one search value. `search_designers` calls `len` on it and
   * returns [] when that raises; a falsy value is skipped; indexing a non-empty dict raises a
   * `KeyError` and indexing a non-empty string yields a one-character string whose `.get`
   * raises, both of which end the whole run.
   */
  function DesignerList(designers: Json): (r: Option<seq<Json>>)
    ensures designers.JArr? ==> r == Some(designers.items)
    ensures r.Some? ==> forall k | 0 <= k < |r.value| :: designers.JArr? && r.value[k] == designers.items[k]
  {
    match designers
    case JArr(items) => Some(items)
    case JStr(s) => if s == [] then Some([]) else None
    case JObj(ms) => if ms == [] then Some([]) else None
    case _ => Some([])
  }

  /** What a Python set accepts: anything but a list or a dict. */
  predicate Hashable(j: Json) {
    !j.JArr? && !j.JObj?
  }

  /**
   * The loop's state: the `processed_usernames` set, the usernames whose social links were
   * requested (in order), and `all_portfolios`.
   */
  datatype Scan = Scan(processed: set<Json>, asked: seq<Json>, portfolios: seq<Portfolio>)

  /** The state after one designer, and whether it added a portfolio. */
  datatype Step = Step(scan: Scan, added: bool)

  /**
   * One pass of the inner loop's body. `None` is an exception that ends the whole run: a
   * designer that is not a dict, an unhashable username, shots without a length.
   */
  function Visit(designer: Json, st: Scan, svc: Services): (r: Option<Step>)
  {
    if !designer.JObj? then None
    else
      var username := Get(designer, "username", JNull).value;
      if !Truthy(username) then Some(Step(st, false))
      else if !Hashable(username) then None
      else if username in st.processed then Some(Step(st, false))
      else
        var marked := Scan(st.processed + {username}, st.asked + [username], st.portfolios);
        var links := svc.links(username);
        if links == [] then Some(Step(marked, false))
        else
          var shots := svc.shots(username);
          if Scraper.PyLen(shots).None? then None
          else
            match Convert(designer, svc.details(username), shots, links, svc.now)
            case None => Some(Step(marked, false))
            case Some(p) => Some(Step(marked.(portfolios := marked.portfolios + [p]), true))
  }

  /** The inner `while`: designers in order until `room` portfolios were added or none is left. */
  function Select(designers: seq<Json>, room: nat, st: Scan, svc: Services): (r: Option<Scan>)
    decreases |designers|
  {
    if room == 0 || designers == [] then Some(st)
    else
      var step :- Visit(designers[0], st, svc);
      Select(designers[1..], if step.added then room - 1 else room, step.scan, svc)
  }

  /** The outer `for`: one selection per query, in order, sharing the state. */
  function Scrape(queries: seq<Json>, room: nat, st: Scan, svc: Services): (r: Option<Scan>)
    decreases |queries|
  {
    if queries == [] then Some(st)
    else
      var designers :- DesignerList(svc.search(queries[0]));
      var next :- Select(designers, room, st, svc);
      Scrape(queries[1..], room, next, svc)
  }

  const Start: Scan := Scan({}, [], [])

  /**
   * `run_scraper(search_queries, max_profiles_per_keyword)`: an exception anywhere returns [].
   * A query may add `CountBelow(max_profiles_per_keyword)` portfolios, none for a cap below one.
   */
  function RunScraper(queries: seq<Json>, cap: int, svc: Services): seq<Portfolio> {
    match Scrape(queries, CountBelow(cap), Start, svc)
    case None => []
    case Some(st) => st.portfolios
  }

  /**
   * What the loop keeps true: the processed set is exactly the usernames asked for, each asked
   * for once; every portfolio belongs to a processed, truthy username with social links, and no
   * two portfolios share a username.
   */
  ghost predicate Consistent(st: Scan) {
    && (forall u :: u in st.processed <==> u in st.asked)
    && (forall i, j | 0 <= i < j < |st.asked| :: st.asked[i] != st.asked[j])
    && (forall k | 0 <= k < |st.portfolios| ::
          st.portfolios[k].username in st.processed && Truthy(st.portfolios[k].username)
          && st.portfolios[k].socialLinks != [])
    && (forall i, j | 0 <= i < j < |st.portfolios| :: st.portfolios[i].username != st.portfolios[j].username)
  }

  /** `next` extends `st`: nothing processed is forgotten and earlier portfolios stay in place. */
  ghost predicate Extends(st: Scan, next: Scan) {
    && st.processed <= next.processed
    && |st.portfolios| <= |next.portfolios|
    && next.portfolios[..|st.portfolios|] == st.portfolios
  }

  /** Marking a new username processed keeps the state consistent. */
  lemma MarkKeeps(st: Scan, username: Json)
    requires Consistent(st) && username !in st.processed
    ensures Consistent(Scan(st.processed + {username}, st.asked + [username], st.portfolios))
  {
    var marked := Scan(st.processed + {username}, st.asked + [username], st.portfolios);
    forall i, j | 0 <= i < j < |marked.asked| ensures marked.asked[i] != marked.asked[j] {
      if j == |st.asked| {
        assert marked.asked[i] == st.asked[i];
      }
    }
  }

  /** Adding the portfolio of a username just marked keeps the state consistent. */
  lemma AddKeeps(st: Scan, p: Portfolio)
    requires Consistent(st) && p.username in st.processed && Truthy(p.username) && p.socialLinks != []
    requires forall k | 0 <= k < |st.portfolios| :: st.portfolios[k].username != p.username
    ensures Consistent(st.(portfolios := st.portfolios + [p]))
  {
  }

  /** The portfolio of a designer record that has a username carries that username. */
  lemma ConvertUsername(searchInfo: Json, details: Json, shots: Json, links: seq<Json>, now: string)
    requires Convert(searchInfo, details, shots, links, now).Some? && HasKey(searchInfo, "username")
    ensures Convert(searchInfo, details, shots, links, now).value.username == Lookup(searchInfo.members, "username").value
  {
  }

  /**
   * One designer keeps the state consistent and adds at most one portfolio, exactly when it says
   * so. A username already processed changes nothing, and a new one is marked processed even
   * when it has no social links.
   */
  lemma VisitKeeps(designer: Json, st: Scan, svc: Services)
    requires Consistent(st) && Visit(designer, st, svc).Some?
    ensures var step := Visit(designer, st, svc).value;
      && Consistent(step.scan) && Extends(st, step.scan)
      && |step.scan.portfolios| == |st.portfolios| + (if step.added then 1 else 0)
    ensures designer.JObj? && Get(designer, "username", JNull).value in st.processed ==>
      Visit(designer, st, svc) == Some(Step(st, false))
    ensures designer.JObj? && Truthy(Get(designer, "username", JNull).value) ==>
      Get(designer, "username", JNull).value in Visit(designer, st, svc).value.scan.processed
  {
    var step := Visit(designer, st, svc).value;
    var username := Get(designer, "username", JNull).value;
    if Truthy(username) && username !in st.processed {
      var marked := Scan(st.processed + {username}, st.asked + [username], st.portfolios);
      MarkKeeps(st, username);
      if step.added {
        var links := svc.links(username);
        var p := Convert(designer, svc.details(username), svc.shots(username), links, svc.now).value;
        ConvertUsername(designer, svc.details(username), svc.shots(username), links, svc.now);
        assert step.scan == marked.(portfolios := st.portfolios + [p]);
        AddKeeps(marked, p);
        assert step.scan.portfolios[..|st.portfolios|] == st.portfolios;
      }
    }
  }

  /**
   * One query's selection keeps the state consistent and adds at most `room` portfolios after
   * the existing ones.
   */
  lemma {:induction false} SelectKeeps(designers: seq<Json>, room: nat, st: Scan, svc: Services)
    requires Consistent(st) && Select(designers, room, st, svc).Some?
    ensures var next := Select(designers, room, st, svc).value;
      Consistent(next) && Extends(st, next) && |next.portfolios| <= |st.portfolios| + room
    decreases |designers|
  {
    if room != 0 && designers != [] {
      VisitKeeps(designers[0], st, svc);
      var step := Visit(designers[0], st, svc).value;
      var room' := if step.added then room - 1 else room;
      SelectKeeps(designers[1..], room', step.scan, svc);
      var next := Select(designers, room, st, svc).value;
      assert next.portfolios[..|step.scan.portfolios|] == step.scan.portfolios;
      assert next.portfolios[..|st.portfolios|] == step.scan.portfolios[..|st.portfolios|];
    }
  }

  /** The whole scan keeps the state consistent and adds at most `room` portfolios per query. */
  lemma {:induction false} ScrapeKeeps(queries: seq<Json>, room: nat, st: Scan, svc: Services)
    requires Consistent(st) && Scrape(queries, room, st, svc).Some?
    ensures var last := Scrape(queries, room, st, svc).value;
      Consistent(last) && Extends(st, last) && |last.portfolios| <= |st.portfolios| + |queries| * room
    decreases |queries|
  {
    if queries != [] {
      var designers := DesignerList(svc.search(queries[0])).value;
      SelectKeeps(designers, room, st, svc);
      var next := Select(designers, room, st, svc).value;
      ScrapeKeeps(queries[1..], room, next, svc);
      var last := Scrape(queries, room, st, svc).value;
      assert last.portfolios[..|next.portfolios|] == next.portfolios;
      assert last.portfolios[..|st.portfolios|] == next.portfolios[..|st.portfolios|];
      assert |queries| * room == room + (|queries| - 1) * room;
    }
  }

  /**
   * What `run_scraper` returns: no username twice, every portfolio with a truthy username and
   * social links, and at most `max_profiles_per_keyword` portfolios per query. The social links
   * of each username were requested at most once across all queries.
   */
  lemma RunScraperFacts(queries: seq<Json>, cap: int, svc: Services)
    ensures var r := RunScraper(queries, cap, svc);
      && (forall i, j | 0 <= i < j < |r| :: r[i].username != r[j].username)
      && (forall k | 0 <= k < |r| :: Truthy(r[k].username) && r[k].socialLinks != [])
      && |r| <= |queries| * CountBelow(cap)
    ensures Scrape(queries, CountBelow(cap), Start, svc).Some? ==>
      var asked := Scrape(queries, CountBelow(cap), Start, svc).value.asked;
      forall i, j | 0 <= i < j < |asked| :: asked[i] != asked[j]
  {
    if Scrape(queries, CountBelow(cap), Start, svc).Some? {
      ScrapeKeeps(queries, CountBelow(cap), Start, svc);
    }
  }

  /**
   * The body of the inner `while` loop for one designer; each early return is one of the
   * source's `continue` statements, or the exception that ends the run.
   */
  method VisitDesigner(designer: Json, processed0: set<Json>, ghost asked0: seq<Json>,
                       portfolios0: seq<Portfolio>, svc: Services)
    returns (crashed: bool, processed: set<Json>, ghost asked: seq<Json>, portfolios: seq<Portfolio>, added: bool)
    ensures crashed <==> Visit(designer, Scan(processed0, asked0, portfolios0), svc).None?
    ensures !crashed ==>
      Visit(designer, Scan(processed0, asked0, portfolios0), svc) == Some(Step(Scan(processed, asked, portfolios), added))
  {
    crashed, processed, asked, portfolios, added := false, processed0, asked0, portfolios0, false;
    if !designer.JObj? {
      return true, processed, asked, portfolios, false;
    }
    var username := Get(designer, "username", JNull).value;
    if !Truthy(username) {
      return;
    }
    if !Hashable(username) {
      return true, processed, asked, portfolios, false;
    }
    if username in processed {
      return;
    }
    processed := processed + {username};
    asked := asked + [username];
    var links := svc.links(username);
    if links == [] {
      return;
    }
    var details := svc.details(username);
    var shots := svc.shots(username);
    if Scraper.PyLen(shots).None? {
      return true, processed, asked, portfolios, false;
    }
    var portfolio := ConvertPortfolio(designer, details, shots, links, svc.now);
    if portfolio.None? {
      return;
    }
    portfolios := portfolios + [portfolio.value];
    added := true;
  }

  /**
   * The inner `while` loop of `run_scraper`. `crashed` reports the exception that ends the run;
   * otherwise the new state is the selection's.
   */
  method SelectDesigners(designers: seq<Json>, cap: int, processed0: set<Json>, ghost asked0: seq<Json>,
                         portfolios0: seq<Portfolio>, svc: Services)
    returns (crashed: bool, processed: set<Json>, ghost asked: seq<Json>, portfolios: seq<Portfolio>)
    ensures crashed <==> Select(designers, CountBelow(cap), Scan(processed0, asked0, portfolios0), svc).None?
    ensures !crashed ==>
      Select(designers, CountBelow(cap), Scan(processed0, asked0, portfolios0), svc) == Some(Scan(processed, asked, portfolios))
  {
    ghost var start := Scan(processed0, asked0, portfolios0);
    ghost var room := CountBelow(cap);
    processed, asked, portfolios := processed0, asked0, portfolios0;
    var count := 0;
    var index := 0;
    while count < cap && index < |designers|
      invariant 0 <= count <= room && index <= |designers|
      invariant Select(designers, room, start, svc)
        == Select(designers[index..], room - count, Scan(processed, asked, portfolios), svc)
    {
      assert designers[index..][1..] == designers[index + 1..];
      var added;
      crashed, processed, asked, portfolios, added := VisitDesigner(designers[index], processed, asked, portfolios, svc);
      if crashed {
        return;
      }
      index := index + 1;
      if added {
        count := count + 1;
      }
    }
    assert room - count == 0 || designers[index..] == [];
    return false, processed, asked, portfolios;
  }

  /** `run_scraper`: the `for` loop over the queries around the selection loop. */
  method RunScraperLoop(queries: seq<Json>, cap: int, svc: Services) returns (portfolios: seq<Portfolio>)
    ensures portfolios == RunScraper(queries, cap, svc)
  {
    var processed: set<Json> := {};
    ghost var asked: seq<Json> := [];
    portfolios := [];
    for q := 0 to |queries|
      invariant Scrape(queries, CountBelow(cap), Start, svc)
        == Scrape(queries[q..], CountBelow(cap), Scan(processed, asked, portfolios), svc)
    {
      assert queries[q..][1..] == queries[q + 1..];
      var designers := DesignerList(svc.search(queries[q]));
      if designers.None? {
        return [];
      }
      var crashed;
      crashed, processed, asked, portfolios := SelectDesigners(designers.value, cap, processed, asked, portfolios, svc);
      if crashed {
        return [];
      }
    }
    assert queries[|queries|..] == [];
  }

  // ---------------------------------------------------------------------------------------
  // PortfolioAnalyzer.process_work_images and process_profile

  /** `str(value)` as an f-string renders it. */
  function PyStr(j: Json): string {
    match j
    case JStr(s) => s
    case JNum(n) => IntToString(n)
    case JBool(b) => if b then "True" else "False"
    case JNull => "None"
    case JFloat(t) => t
    case _ => Dumps(j)
  }

  /** `f"{profile_username}_{clean_title}_{work_index}.jpg"`, the title cleaned and cut to 30. */
  function WorkImageFilename(username: string, title: string, index: nat): string {
    username + "_" + Scraper.CleanTitle(title, 30) + "_" + NatToString(index) + Scraper.Jpg
  }

  /** The work index a file name carries: the digits between its last '_' and the ".jpg" suffix. */
  function FilenameIndex(name: string): (r: Option<nat>) {
    if |name| < |Scraper.Jpg| || name[|name| - |Scraper.Jpg|..] != Scraper.Jpg then None
    else StemIndex(name[..|name| - |Scraper.Jpg|])
  }

  /** The number after the last '_' of a file name's stem. */
  function StemIndex(stem: string): (r: Option<nat>) {
    if '_' !in stem then None else Digits(stem[LastIndexOf(stem, '_') + 1..])
  }

  /** The value of a string of decimal digits; `None` for any other string. */
  function Digits(s: string): (r: Option<nat>) {
    if forall k | 0 <= k < |s| :: '0' <= s[k] <= '9' then Some(DigitsValue(s)) else None
  }

  /** A name ending in "_", the digits of `index` and ".jpg" carries `index`, whatever precedes it. */
  lemma FilenameIndexOf(prefix: string, index: nat)
    ensures FilenameIndex(prefix + "_" + NatToString(index) + Scraper.Jpg) == Some(index)
  {
    var stem := prefix + "_" + NatToString(index);
    var name := stem + Scraper.Jpg;
    assert name[..|name| - |Scraper.Jpg|] == stem;
    assert name[|name| - |Scraper.Jpg|..] == Scraper.Jpg;
    StemIndexOf(prefix, index);
  }

  /** The stem's last '_' is the one before the digits. */
  lemma StemIndexOf(prefix: string, index: nat)
    ensures StemIndex(prefix + "_" + NatToString(index)) == Some(index)
  {
    var digits := NatToString(index);
    var stem := prefix + "_" + digits;
    var u := |prefix|;
    assert stem[u] == '_';
    forall k | u < k < |stem| ensures stem[k] != '_' {
      assert stem[k] == digits[k - u - 1];
    }
    Analyzer.LastIndexOfIs(stem, '_', u);
    assert stem[u + 1..] == digits;
    NatToStringRoundTrip(index);
  }

  /**
   * A work's file name starts with the username and '_', its title part keeps only
   * `[a-z0-9_-]`-safe characters and at most 30 of them, and the work index reads back from it.
   */
  lemma WorkImageFilenameFacts(username: string, title: string, index: nat)
    ensures var name := WorkImageFilename(username, title, index);
      && |username| + 1 <= |name| && name[..|username| + 1] == username + "_"
      && FilenameIndex(name) == Some(index)
  {
    var clean := Scraper.CleanTitle(title, 30);
    var prefix := username + "_" + clean;
    var name := WorkImageFilename(username, title, index);
    assert name == prefix + "_" + NatToString(index) + Scraper.Jpg;
    assert name[..|username| + 1] == username + "_";
    FilenameIndexOf(prefix, index);
  }

  /** One entry of `downloaded_images`. */
  datatype Image = Image(filename: string, base64Data: string, originalUrl: Json)

  /**
   * `process_work_images(work, profile_username, work_index)`. `download(url)` is what
   * `download_image_to_memory` returns. `None` is an exception: a work that is not a dict, a
   * title that is not a string.
   */
  function WorkImages(work: Json, username: Json, index: nat, download: Json -> Option<string>): (r: Option<seq<Image>>)
    ensures r.Some? ==> |r.value| <= 1
    ensures work.JObj? && !Truthy(Get(work, "image_url", JStr("")).value) ==> r == Some([])
    ensures r.Some? && r.value != [] ==>
      (work.JObj? && FilenameIndex(r.value[0].filename) == Some(index)
       && r.value[0].originalUrl == Get(work, "image_url", JStr("")).value)
  {
    var url :- Get(work, "image_url", JStr(""));
    if !Truthy(url) then Some([])
    else
      match download(url)
      case None => Some([])
      case Some(data) =>
        if data == [] then Some([])
        else
          var title := Get(work, "title", JStr("untitled")).value;
          if !title.JStr? then None
          else
            FilenameIndexOf(PyStr(username) + "_" + Scraper.CleanTitle(title.s, 30), index);
            Some([Image(WorkImageFilename(PyStr(username), title.s, index), data, url)])
  }

  /** One entry of `relevant_works`: a work with its downloaded images. */
  datatype RelevantWork = RelevantWork(id: Json, title: Json, slug: Json, images: seq<Image>)

  /** `work_data` for a work with images; `None` is the `KeyError` of a work without a title. */
  function WorkData(work: Json, images: seq<Image>): (r: Option<RelevantWork>)
    requires work.JObj?
    ensures r.Some? <==> HasKey(work, "title")
  {
    var title :- Lookup(work.members, "title");
    Some(RelevantWork(Get(work, "id", JStr("")).value, title, Get(work, "slug", JStr("")).value, images))
  }

  /** The `for work_index, work in enumerate(works)` loop gathering the works that have images. */
  function Relevant(works: seq<Json>, username: Json, download: Json -> Option<string>): (r: Option<seq<RelevantWork>>)
    decreases |works|
  {
    if works == [] then Some([])
    else
      var last := |works| - 1;
      var done :- Relevant(works[..last], username, download);
      var images :- WorkImages(works[last], username, last, download);
      if images == [] then Some(done)
      else
        var data :- WorkData(works[last], images);
        Some(done + [data])
  }

  /** There are no more relevant works than works, and each has exactly one image. */
  lemma {:induction false} RelevantSize(works: seq<Json>, username: Json, download: Json -> Option<string>)
    requires Relevant(works, username, download).Some?
    ensures var r := Relevant(works, username, download).value;
      |r| <= |works| && forall j | 0 <= j < |r| :: |r[j].images| == 1
    decreases |works|
  {
    if works != [] {
      var last := |works| - 1;
      var init := works[..last];
      RelevantSize(init, username, download);
      var done := Relevant(init, username, download).value;
      var images := WorkImages(works[last], username, last, download).value;
      var r := Relevant(works, username, download).value;
      if images == [] {
        assert r == done;
      } else {
        var data := WorkData(works[last], images).value;
        assert r == done + [data] && |data.images| == 1;
        forall j | 0 <= j < |r| ensures |r[j].images| == 1 {
          if j < |done| {
            assert r[j] == done[j];
          }
        }
      }
    }
  }

  /** There are no relevant works exactly when no work yielded an image. */
  lemma {:induction false} RelevantEmpty(works: seq<Json>, username: Json, download: Json -> Option<string>)
    requires Relevant(works, username, download).Some?
    ensures Relevant(works, username, download).value == []
      <==> forall k | 0 <= k < |works| :: WorkImages(works[k], username, k, download) == Some([])
    decreases |works|
  {
    if works != [] {
      var last := |works| - 1;
      var init := works[..last];
      RelevantEmpty(init, username, download);
      var done := Relevant(init, username, download).value;
      var images := WorkImages(works[last], username, last, download).value;
      assert Relevant(works, username, download).value == [] <==> done == [] && images == [];
      if done == [] && images == [] {
        assert WorkImages(works[last], username, last, download) == Some([]);
        forall k | 0 <= k < |works| ensures WorkImages(works[k], username, k, download) == Some([]) {
          if k < last {
            assert init[k] == works[k];
          } else {
            assert k == last;
          }
        }
      } else if done != [] {
        var k :| 0 <= k < last && WorkImages(init[k], username, k, download) != Some([]);
        assert init[k] == works[k];
      }
    }
  }

  /** The part of `final_profile` the model keeps. */
  datatype Profile = Profile(
    relevantWorks: seq<Json>,
    totalRelevantWorks: nat,
    totalImagesExtracted: nat,
    socialMediaLinks: seq<Json>)

  /** `clean_work`: the work without the image data. */
  function CleanWork(w: RelevantWork): Json {
    Obj([
      ("id", w.id),
      ("title", w.title),
      ("slug", w.slug),
      ("image_count", JNum(|w.images|)),
      ("images", JArr(seq(|w.images|, k requires 0 <= k < |w.images| =>
        Obj([("filename", JStr(w.images[k].filename)), ("original_url", w.images[k].originalUrl)]))))])
  }

  /** `sum(len(work['images']) for work in relevant_works)`. */
  function TotalImages(ws: seq<RelevantWork>): nat
    decreases |ws|
  {
    if ws == [] then 0 else TotalImages(ws[..|ws| - 1]) + |ws[|ws| - 1].images|
  }

  /** With one image per work, the image total is the work count. */
  lemma {:induction false} TotalImagesOfSingles(ws: seq<RelevantWork>)
    requires forall j | 0 <= j < |ws| :: |ws[j].images| == 1
    ensures TotalImages(ws) == |ws|
    decreases |ws|
  {
    if ws != [] {
      TotalImagesOfSingles(ws[..|ws| - 1]);
    }
  }

  /**
   * `process_profile(profile_data)` with `max_relevant_works`: only the first works are looked at,
   * and `None` is returned on an exception or when no work yields an image.
   */
  function ProcessProfile(p: Portfolio, maxWorks: int, download: Json -> Option<string>): Option<Profile> {
    var relevant :- Relevant(Take(p.works, maxWorks), p.username, download);
    if relevant == [] then None
    else
      Some(Profile(seq(|relevant|, j requires 0 <= j < |relevant| => CleanWork(relevant[j])),
        |relevant|, TotalImages(relevant), p.socialLinks))
  }

  /**
   * A processed profile has between one and `max_relevant_works` relevant works (no more than
   * the portfolio has), as many images as works, and the portfolio's links; when every work
   * considered has no image (and none raises) the result is `None`.
   */
  lemma ProcessProfileFacts(p: Portfolio, maxWorks: int, download: Json -> Option<string>)
    ensures var r := ProcessProfile(p, maxWorks, download);
      && (r.Some? ==>
        && 1 <= r.value.totalRelevantWorks == |r.value.relevantWorks|
        && r.value.totalRelevantWorks <= |p.works|
        && (maxWorks >= 0 ==> r.value.totalRelevantWorks <= maxWorks)
        && r.value.totalImagesExtracted == r.value.totalRelevantWorks
        && r.value.socialMediaLinks == p.socialLinks)
      && ((forall k | 0 <= k < |Take(p.works, maxWorks)| ::
             WorkImages(Take(p.works, maxWorks)[k], p.username, k, download) == Some([])) ==> r.None?)
  {
    var chosen := Take(p.works, maxWorks);
    var relevant := Relevant(chosen, p.username, download);
    if relevant.Some? {
      RelevantSize(chosen, p.username, download);
      RelevantEmpty(chosen, p.username, download);
      TotalImagesOfSingles(relevant.value);
    }
  }

  /** The loop of `process_profile` over the first `max_relevant_works` works. */
  method CollectRelevantWorks(works: seq<Json>, username: Json, download: Json -> Option<string>)
    returns (relevant: Option<seq<RelevantWork>>)
    ensures relevant == Relevant(works, username, download)
  {
    var done: seq<RelevantWork> := [];
    for i := 0 to |works|
      invariant Relevant(works[..i], username, download) == Some(done)
    {
      assert works[..i + 1][..i] == works[..i];
      var images := WorkImages(works[i], username, i, download);
      if images.None? {
        assert Relevant(works[..i + 1], username, download).None?;
        PrefixFailure(works, username, download, i + 1);
        return None;
      }
      if images.value != [] {
        var data := WorkData(works[i], images.value);
        if data.None? {
          PrefixFailure(works, username, download, i + 1);
          return None;
        }
        done := done + [data.value];
      }
    }
    assert works[..|works|] == works;
    return Some(done);
  }

  /** Once a prefix raises, so does the whole loop. */
  lemma {:induction false} PrefixFailure(works: seq<Json>, username: Json, download: Json -> Option<string>, n: nat)
    requires n <= |works| && Relevant(works[..n], username, download).None?
    ensures Relevant(works, username, download).None?
    decreases |works| - n
  {
    if n < |works| {
      assert works[..n + 1][..n] == works[..n];
      PrefixFailure(works, username, download, n + 1);
    } else {
      assert works[..n] == works;
    }
  }
}
