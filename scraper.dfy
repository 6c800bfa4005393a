/**
 * The Dribbble scraper: fetching pages through the reader service with retries, extracting
 * designers and their shots from a search page, de-duplicating a profile's shots, naming the
 * downloaded images, and assembling one record per designer. The reader service, the language
 * model, the image downloads and the regular-expression engine are parameters: what the reader
 * answers for each attempt, the matches each pattern yields, and the size of each download.
 */
module Scraper {
  import opened Wrappers
  import opened Text
  import opened Json
  import opened Recovery

  // ---------------------------------------------------------------------------------------
  // `_jina_fetch`

  /** One call of the reader service: it raised (network error, a body that is not JSON), or it answered. */
  datatype Response = Raised | Answered(status: int, body: Json)

  /** `len(value)`; `None` where `len` raises. */
  function PyLen(j: Json): (r: Option<nat>)
    ensures r.Some? <==> j.JStr? || j.JArr? || j.JObj?
  {
    match j
    case JStr(s) => Some(|s|)
    case JArr(items) => Some(|items|)
    case JObj(ms) => Some(|ms|)
    case _ => None
  }

  /**
   * What one attempt yields: the body's `data.content` when the status is 200 and that content
   * is truthy and longer than 500; `None` for any other status, a raised call, a `.get` on
   * something that is not a dict, and content that is short or has no length.
   */
  function Accepted(r: Response): (c: Option<Json>)
    ensures c.Some? ==> r.Answered? && r.status == 200
    ensures c.Some? ==> PyLen(c.value).Some? && PyLen(c.value).value > 500
  {
    if !r.Answered? || r.status != 200 then None
    else
      match Get(r.body, "data", JObj([]))
      case None => None
      case Some(data) =>
        match Get(data, "content", JStr(""))
        case None => None
        case Some(content) =>
          if Truthy(content) && PyLen(content).Some? && PyLen(content).value > 500 then Some(content)
          else None
  }

  /** `len(range(retries + 1))`. */
  function Attempts(retries: int): nat {
    if retries < 0 then 0 else retries + 1
  }

  /**
   * `_jina_fetch(url, retries)`, with `respond(k)` what the service does on attempt `k`. It
   * returns the content of the first accepted attempt, trying at most `retries + 1` times; the
   * 3-second waits come after every failed attempt but the last.
   */
  method JinaFetch(respond: nat -> Response, retries: int) returns (content: Option<Json>, attempts: nat, waits: seq<nat>)
    ensures attempts <= Attempts(retries)
    ensures content.Some? ==> 1 <= attempts && content == Accepted(respond(attempts - 1))
    ensures content.None? ==> attempts == Attempts(retries)
    ensures forall k :: 0 <= k < attempts && (content.None? || k < attempts - 1) ==> Accepted(respond(k)).None?
    ensures |waits| == if attempts == 0 then 0 else attempts - 1
    ensures forall k :: 0 <= k < |waits| ==> waits[k] == 3
  {
    content, attempts, waits := None, 0, [];
    while attempts < Attempts(retries)
      invariant attempts <= Attempts(retries)
      invariant forall k :: 0 <= k < attempts ==> Accepted(respond(k)).None?
      invariant attempts < Attempts(retries) ==> |waits| == attempts
      invariant attempts == Attempts(retries) ==> |waits| == if attempts == 0 then 0 else attempts - 1
      invariant forall k :: 0 <= k < |waits| ==> waits[k] == 3
    {
      var c := Accepted(respond(attempts));
      if c.Some? {
        content, attempts := c, attempts + 1;
        return;
      }
      if attempts < retries {
        waits := waits + [3];
      }
      attempts := attempts + 1;
    }
  }

  // ---------------------------------------------------------------------------------------
  // `search_dribbble`: the designers a search page links to

  /** Dribbble's own pages, which the search page links to like profiles. */
  const ExcludedUsernames: set<string> := {
    "signups", "session", "pro", "shots", "search", "designers",
    "instantmatch", "stories", "jobs", "contact", "about", "careers",
    "advertise", "hiring", "for-designers", "browse-project-briefs",
    "services", "freshbooks", "designer-advertising", "tags"}

  const ShotsPrefix: string := "shots"
  const DribbbleUrl: string := "https://dribbble.com/"

  /** A name that can be a designer: not one of Dribbble's pages and not starting with "shots". */
  predicate Eligible(username: string) {
    username !in ExcludedUsernames && !StartsWith(username, ShotsPrefix)
  }

  /** A match of the profile-link pattern on the page: its display-name and username groups. */
  datatype UserMatch = UserMatch(display: string, username: string)

  /** A shot: its title and its image's address. */
  datatype Shot = Shot(title: string, imageUrl: string)

  /** A designer the search found: stripped username and display name, and the shots paired to it. */
  datatype Designer = Designer(username: string, displayName: string, profileUrl: string, searchShots: seq<Shot>)

  /** An eligible link, before de-duplication. */
  datatype Stub = Stub(username: string, displayName: string)

  /** The eligible links of the page, stripped, in page order. */
  function EligibleEntries(ms: seq<UserMatch>): (r: seq<Stub>)
    ensures |r| <= |ms|
    decreases |ms|
  {
    if ms == [] then []
    else
      var prev := EligibleEntries(ms[..|ms| - 1]);
      var s := StubOf(ms[|ms| - 1]);
      if Eligible(s.username) then prev + [s] else prev
  }

  /** Every kept link is eligible, and every eligible link is kept. */
  lemma {:induction false} EligibleEntriesAreEligible(ms: seq<UserMatch>)
    ensures forall k :: 0 <= k < |EligibleEntries(ms)| ==> Eligible(EligibleEntries(ms)[k].username)
    decreases |ms|
  {
    if ms != [] {
      var init := ms[..|ms| - 1];
      EligibleEntriesAreEligible(init);
      var prev := EligibleEntries(init);
      var s := StubOf(ms[|ms| - 1]);
      if Eligible(s.username) {
        var r := prev + [s];
        assert EligibleEntries(ms) == r;
        forall k | 0 <= k < |r| ensures Eligible(r[k].username) {
          if k < |prev| {
            assert r[k] == prev[k];
          }
        }
      } else {
        assert EligibleEntries(ms) == prev;
      }
    }
  }

  /** The stub of a link: its stripped username and display name. */
  function StubOf(m: UserMatch): Stub {
    Stub(Strip(m.username), Strip(m.display))
  }

  /** No eligible link is lost: the stub of each is among the kept ones. */
  lemma {:induction false} EligibleEntriesComplete(ms: seq<UserMatch>, k: nat)
    requires k < |ms| && Eligible(StubOf(ms[k]).username)
    ensures StubOf(ms[k]) in EligibleEntries(ms)
    decreases |ms|
  {
    var init := ms[..|ms| - 1];
    var prev := EligibleEntries(init);
    var last := StubOf(ms[|ms| - 1]);
    if k < |ms| - 1 {
      assert ms[k] == init[k];
      EligibleEntriesComplete(init, k);
    }
    if Eligible(last.username) {
      assert EligibleEntries(ms) == prev + [last];
    } else {
      assert EligibleEntries(ms) == prev;
    }
  }

  /** The usernames of some stubs. */
  function Usernames(ss: seq<Stub>): (r: set<string>)
    ensures forall u :: u in r <==> exists k :: 0 <= k < |ss| && ss[k].username == u
  {
    set k | 0 <= k < |ss| :: ss[k].username
  }

  lemma UsernamesSnoc(ss: seq<Stub>, s: Stub)
    ensures Usernames(ss + [s]) == Usernames(ss) + {s.username}
  {
    var r := ss + [s];
    forall u | u in Usernames(ss) ensures u in Usernames(r) {
      var k :| 0 <= k < |ss| && ss[k].username == u;
      assert r[k] == ss[k];
    }
    assert r[|ss|] == s;
  }

  /** The first stub of each username, in order. */
  function FirstOccurrences(ss: seq<Stub>): (r: seq<Stub>)
    ensures Usernames(r) == Usernames(ss)
    decreases |ss|
  {
    if ss == [] then []
    else
      var prev := FirstOccurrences(ss[..|ss| - 1]);
      var last := ss[|ss| - 1];
      assert ss == ss[..|ss| - 1] + [last];
      UsernamesSnoc(ss[..|ss| - 1], last);
      UsernamesSnoc(prev, last);
      if last.username in Usernames(prev) then prev else prev + [last]
  }

  /** De-duplication leaves each username once. */
  lemma {:induction false} FirstOccurrencesDistinct(ss: seq<Stub>)
    ensures forall i, j :: 0 <= i < j < |FirstOccurrences(ss)| ==>
      FirstOccurrences(ss)[i].username != FirstOccurrences(ss)[j].username
    decreases |ss|
  {
    if ss != [] {
      var init := ss[..|ss| - 1];
      FirstOccurrencesDistinct(init);
      var prev := FirstOccurrences(init);
      var last := ss[|ss| - 1];
      if last.username !in Usernames(prev) {
        var r := prev + [last];
        assert FirstOccurrences(ss) == r;
        forall i, j | 0 <= i < j < |r| ensures r[i].username != r[j].username {
          assert r[i] == prev[i];
          if j < |prev| {
            assert r[j] == prev[j];
          }
        }
      } else {
        assert FirstOccurrences(ss) == prev;
      }
    }
  }

  /** The first stub with a given username is the one kept for it. */
  lemma {:induction false} FirstOccurrenceKept(ss: seq<Stub>, j: nat)
    requires j < |ss| && forall i :: 0 <= i < j ==> ss[i].username != ss[j].username
    ensures ss[j] in FirstOccurrences(ss)
    decreases |ss|
  {
    var init := ss[..|ss| - 1];
    var prev := FirstOccurrences(init);
    var last := ss[|ss| - 1];
    if j < |ss| - 1 {
      assert init[j] == ss[j];
      forall i | 0 <= i < j ensures init[i].username != init[j].username {
        assert init[i] == ss[i];
      }
      FirstOccurrenceKept(init, j);
    } else {
      assert last.username !in Usernames(init) by {
        forall i | 0 <= i < |init| ensures init[i].username != last.username {
          assert init[i] == ss[i];
        }
      }
    }
    if last.username in Usernames(prev) {
      assert FirstOccurrences(ss) == prev;
    } else {
      assert FirstOccurrences(ss) == prev + [last];
    }
  }

  // The pairing of shot lines with the next designer line

  /**
   * What the two per-line patterns find on one line of the page: a shot (checked first), a
   * profile link (its raw username group), or neither.
   */
  datatype LineMatch = ShotLine(shot: Shot) | UserLine(username: string) | OtherLine

  /**
   * The pairing state: the shots waiting for a designer, and the shots paired with each
   * username, in the order the usernames were first paired (a Python dict).
   */
  datatype Pairing = Pairing(pending: seq<Shot>, paired: seq<(string, seq<Shot>)>)

  /** `paired.get(username, [])`. */
  function PairedShots(paired: seq<(string, seq<Shot>)>, username: string): (r: seq<Shot>)
    ensures (forall k :: 0 <= k < |paired| ==> paired[k].0 != username) ==> r == []
  {
    if paired == [] then []
    else if paired[0].0 == username then paired[0].1
    else PairedShots(paired[1..], username)
  }

  /** `paired.setdefault(username, []).extend(shots)`. */
  function Extend(paired: seq<(string, seq<Shot>)>, username: string, shots: seq<Shot>): (r: seq<(string, seq<Shot>)>)
    ensures forall k :: 0 <= k < |r| ==> r[k].0 == username || exists i :: 0 <= i < |paired| && paired[i] == r[k]
    ensures PairedShots(r, username) == PairedShots(paired, username) + shots
  {
    if paired == [] then [(username, shots)]
    else if paired[0].0 == username then [(username, paired[0].1 + shots)] + paired[1..]
    else
      var rest := Extend(paired[1..], username, shots);
      assert forall k :: 0 <= k < |rest| ==> rest[k].0 == username || exists i :: 0 <= i < |paired| && paired[i] == rest[k] by {
        forall k | 0 <= k < |rest| && rest[k].0 != username
          ensures exists i :: 0 <= i < |paired| && paired[i] == rest[k]
        {
          var i :| 0 <= i < |paired| - 1 && paired[1..][i] == rest[k];
          assert paired[i + 1] == rest[k];
        }
      }
      [paired[0]] + rest
  }

  /**
   * One line: a shot joins the pending shots; a profile link of a designer takes the pending
   * shots (when there are any); a link to one of Dribbble's own pages changes nothing. Unlike
   * the designer list, the pairing does not skip names starting with "shots".
   */
  function PairLine(p: Pairing, m: LineMatch): Pairing {
    match m
    case ShotLine(shot) => p.(pending := p.pending + [shot])
    case UserLine(raw) =>
      var u := Strip(raw);
      if u !in ExcludedUsernames && p.pending != [] then Pairing([], Extend(p.paired, u, p.pending))
      else if u !in ExcludedUsernames then p.(pending := [])
      else p
    case OtherLine => p
  }

  /** The lines of the page, in order. */
  function PairLines(ms: seq<LineMatch>): Pairing
    decreases |ms|
  {
    if ms == [] then Pairing([], []) else PairLine(PairLines(ms[..|ms| - 1]), ms[|ms| - 1])
  }

  /** The shots of the shot lines, in order. */
  function LineShots(ms: seq<LineMatch>): (r: seq<Shot>)
    decreases |ms|
  {
    if ms == [] then []
    else LineShots(ms[..|ms| - 1]) + (if ms[|ms| - 1].ShotLine? then [ms[|ms| - 1].shot] else [])
  }

  /** All the paired shots, username by username. */
  function AllPaired(paired: seq<(string, seq<Shot>)>): multiset<Shot> {
    if paired == [] then multiset{} else multiset(paired[0].1) + AllPaired(paired[1..])
  }

  lemma {:induction false} ExtendAdds(paired: seq<(string, seq<Shot>)>, username: string, shots: seq<Shot>)
    ensures AllPaired(Extend(paired, username, shots)) == AllPaired(paired) + multiset(shots)
  {
    if paired != [] {
      if paired[0].0 == username {
        var r := Extend(paired, username, shots);
        assert r[1..] == paired[1..];
      } else {
        ExtendAdds(paired[1..], username, shots);
        assert Extend(paired, username, shots)[1..] == Extend(paired[1..], username, shots);
      }
    }
  }

  /** What the pairing keeps true: no shot is lost or invented, and only designers get shots. */
  predicate PairingInvariant(p: Pairing, ms: seq<LineMatch>) {
    && multiset(p.pending) + AllPaired(p.paired) == multiset(LineShots(ms))
    && forall k :: 0 <= k < |p.paired| ==> p.paired[k].0 !in ExcludedUsernames
  }

  /**
   * Every shot line's shot is either still pending or paired with exactly one designer (a link
   * with nothing pending clears an empty list), and no page of Dribbble's own is paired.
   */
  lemma {:induction false} PairingKeepsShots(ms: seq<LineMatch>)
    ensures PairingInvariant(PairLines(ms), ms)
    decreases |ms|
  {
    if ms != [] {
      var init := ms[..|ms| - 1];
      PairingKeepsShots(init);
      PairLineKeeps(PairLines(init), init, ms[|ms| - 1]);
      assert init + [ms[|ms| - 1]] == ms;
    }
  }

  lemma LineShotsSnoc(ms: seq<LineMatch>, m: LineMatch)
    ensures LineShots(ms + [m]) == LineShots(ms) + (if m.ShotLine? then [m.shot] else [])
  {
    assert (ms + [m])[..|ms|] == ms;
  }

  lemma PairLineKeeps(p: Pairing, ms: seq<LineMatch>, m: LineMatch)
    requires PairingInvariant(p, ms)
    ensures PairingInvariant(PairLine(p, m), ms + [m])
  {
    LineShotsSnoc(ms, m);
    match m
    case ShotLine(shot) =>
      assert multiset(p.pending + [shot]) == multiset(p.pending) + multiset{shot};
    case UserLine(raw) =>
      PairUserKeeps(p, ms, raw);
    case OtherLine =>
  }

  lemma PairUserKeeps(p: Pairing, ms: seq<LineMatch>, raw: string)
    requires PairingInvariant(p, ms)
    ensures PairingInvariant(PairLine(p, UserLine(raw)), ms + [UserLine(raw)])
  {
    LineShotsSnoc(ms, UserLine(raw));
    var u := Strip(raw);
    if u !in ExcludedUsernames && p.pending != [] {
      ExtendAdds(p.paired, u, p.pending);
      ExtendKeepsNames(p.paired, u, p.pending);
    }
  }

  lemma ExtendKeepsNames(paired: seq<(string, seq<Shot>)>, username: string, shots: seq<Shot>)
    requires username !in ExcludedUsernames
    requires forall k :: 0 <= k < |paired| ==> paired[k].0 !in ExcludedUsernames
    ensures var q := Extend(paired, username, shots);
      forall k :: 0 <= k < |q| ==> q[k].0 !in ExcludedUsernames
  {
    var q := Extend(paired, username, shots);
    forall k | 0 <= k < |q| ensures q[k].0 !in ExcludedUsernames {
      if q[k].0 != username {
        var i :| 0 <= i < |paired| && paired[i] == q[k];
      }
    }
  }

  /** A designer of the search with the shots paired to its username. */
  function WithShots(s: Stub, paired: seq<(string, seq<Shot>)>): (d: Designer)
    ensures d.username == s.username && d.displayName == s.displayName
  {
    Designer(s.username, s.displayName, DribbbleUrl + s.username, PairedShots(paired, s.username))
  }

  function AllWithShots(ss: seq<Stub>, paired: seq<(string, seq<Shot>)>): (r: seq<Designer>)
    ensures |r| == |ss| && forall k :: 0 <= k < |ss| ==> r[k] == WithShots(ss[k], paired)
  {
    seq(|ss|, k requires 0 <= k < |ss| => WithShots(ss[k], paired))
  }

  /** What `search_dribbble` returns for a fetched page. */
  function SearchResult(userMatches: seq<UserMatch>, lineMatches: seq<LineMatch>, numUsers: int): seq<Designer> {
    Take(AllWithShots(FirstOccurrences(EligibleEntries(userMatches)), PairLines(lineMatches).paired), numUsers)
  }

  /**
   * The designers of a search page: at most `numUsers` (when that is not negative), usernames
   * distinct and never one of Dribbble's pages or a "shots..." name, each linked on the page.
   */
  lemma SearchResultFacts(userMatches: seq<UserMatch>, lineMatches: seq<LineMatch>, numUsers: int)
    ensures var r := SearchResult(userMatches, lineMatches, numUsers);
      && (numUsers >= 0 ==> |r| <= numUsers)
      && (forall k :: 0 <= k < |r| ==> Eligible(r[k].username))
      && (forall i, j :: 0 <= i < j < |r| ==> r[i].username != r[j].username)
      && (forall k :: 0 <= k < |r| ==> r[k].username in Usernames(EligibleEntries(userMatches)))
  {
    var ss := FirstOccurrences(EligibleEntries(userMatches));
    FirstOccurrencesDistinct(EligibleEntries(userMatches));
    EligibleEntriesAreEligible(userMatches);
    var all := AllWithShots(ss, PairLines(lineMatches).paired);
    var r := SearchResult(userMatches, lineMatches, numUsers);
    assert r == all[..|r|];
    var entries := EligibleEntries(userMatches);
    forall k | 0 <= k < |r| ensures Eligible(r[k].username) && r[k].username in Usernames(entries) {
      assert r[k] == all[k] && all[k].username == ss[k].username;
      assert ss[k].username in Usernames(ss);
      var j :| 0 <= j < |entries| && entries[j].username == ss[k].username;
    }
    forall i, j | 0 <= i < j < |r| ensures r[i].username != r[j].username {
      assert r[i] == all[i] && r[j] == all[j];
    }
  }

  /**
   * `search_dribbble`: nothing when the page could not be fetched (or is empty); otherwise
   * the eligible designers of `userMatches`, the first of each username, each with the shots
   * the line-by-line pairing gave it, cut to `numUsers`. `classify` is what the two per-line
   * patterns find on a line.
   */
  method SearchDribbble(raw: Option<string>, userMatches: seq<UserMatch>, classify: string -> LineMatch, numUsers: int)
    returns (designers: seq<Designer>)
    ensures raw.None? || raw == Some("") ==> designers == []
    ensures raw.Some? && raw.value != "" ==>
      var lines := SplitNewlines(raw.value);
      designers == SearchResult(userMatches, seq(|lines|, k requires 0 <= k < |lines| => classify(lines[k])), numUsers)
  {
    if raw.None? || raw.value == "" {
      return [];
    }
    var entries := CollectEntries(userMatches);
    var stubs := Dedupe(entries);
    var lines := SplitNewlines(raw.value);
    var ms := seq(|lines|, k requires 0 <= k < |lines| => classify(lines[k]));
    var pairing := PairAll(ms);
    designers := Take(AllWithShots(stubs, pairing.paired), numUsers);
  }

  /** The loop collecting the eligible links. */
  method CollectEntries(ms: seq<UserMatch>) returns (entries: seq<Stub>)
    ensures entries == EligibleEntries(ms)
  {
    entries := [];
    for i := 0 to |ms|
      invariant entries == EligibleEntries(ms[..i])
    {
      assert ms[..i + 1][..i] == ms[..i];
      var s := StubOf(ms[i]);
      if Eligible(s.username) {
        entries := entries + [s];
      }
    }
    assert ms[..|ms|] == ms;
  }

  /** The loop keeping the first stub of each username, with the set of usernames seen. */
  method Dedupe(entries: seq<Stub>) returns (stubs: seq<Stub>)
    ensures stubs == FirstOccurrences(entries)
  {
    stubs := [];
    var seen: set<string> := {};
    for i := 0 to |entries|
      invariant stubs == FirstOccurrences(entries[..i])
      invariant seen == Usernames(stubs)
    {
      assert entries[..i + 1][..i] == entries[..i];
      var e := entries[i];
      if e.username !in seen {
        seen := seen + {e.username};
        stubs := stubs + [e];
        assert Usernames(stubs) == seen by {
          assert stubs[|stubs| - 1] == e;
          forall u | u in seen ensures u in Usernames(stubs) {
            if u != e.username {
              var k :| 0 <= k < |stubs| - 1 && stubs[..|stubs| - 1][k].username == u;
              assert stubs[k].username == u;
            }
          }
        }
      }
    }
    assert entries[..|entries|] == entries;
  }

  /** The loop over the page's lines. */
  method PairAll(ms: seq<LineMatch>) returns (p: Pairing)
    ensures p == PairLines(ms)
  {
    var pending: seq<Shot> := [];
    var paired: seq<(string, seq<Shot>)> := [];
    for i := 0 to |ms|
      invariant Pairing(pending, paired) == PairLines(ms[..i])
    {
      assert ms[..i + 1][..i] == ms[..i];
      match ms[i]
      case ShotLine(shot) =>
        pending := pending + [shot];
      case UserLine(raw) =>
        var u := Strip(raw);
        if u !in ExcludedUsernames && pending != [] {
          paired := Extend(paired, u, pending);
          pending := [];
        } else if u !in ExcludedUsernames {
          pending := [];
        }
      case OtherLine =>
    }
    assert ms[..|ms|] == ms;
    p := Pairing(pending, paired);
  }

  // ---------------------------------------------------------------------------------------
  // `scrape_designer_profile`: the profile the language model reads off the about page

  /**
   * The profile dict: what the reply parses to when that is a dict, else `{}` (also when the
   * page could not be fetched or the model call raised, both `reply == None`).
   */
  function ProfileOf(reply: Option<string>, loads: Loads): (r: Json)
    ensures r.JObj?
    ensures reply.Some? && Recover(ScraperStages, reply.value, loads).Some? && Recover(ScraperStages, reply.value, loads).value.JObj?
      ==> r == Recover(ScraperStages, reply.value, loads).value
  {
    match reply
    case None => JObj([])
    case Some(text) =>
      match Recover(ScraperStages, text, loads)
      case Some(v) => if v.JObj? then v else JObj([])
      case None => JObj([])
  }

  // ---------------------------------------------------------------------------------------
  // `scrape_designer_shots`: the shots of a profile page

  /** A match of the image pattern on a profile page: its alt-text and address groups. */
  datatype ImageMatch = ImageMatch(alt: string, url: string)

  /**
   * The address without its query: everything from the first '?' on removed. (The address
   * comes from a pattern that admits no whitespace, so `\?.*$` reaches the end.)
   */
  function CleanUrl(url: string): (r: string)
    ensures |r| <= |url| && '?' !in r && r == url[..|r|]
    ensures '?' !in url ==> r == url
  {
    if '?' in url then url[..IndexOf(url, '?')] else url
  }

  /** `title[:80] if title else "Untitled"`. */
  function ShotTitle(title: string): (r: string)
    ensures 1 <= |r| <= 80
    ensures title != [] ==> |r| <= |title| && r == title[..|r|]
  {
    if title != [] then Take(title, 80) else "Untitled"
  }

  const Avatar: string := "avatar"

  predicate IsAvatar(url: string) {
    Contains(Lower(url), Avatar)
  }

  /** The query-less addresses of some shots. */
  function CleanUrls(shots: seq<Shot>): (r: set<string>)
    ensures forall u :: u in r <==> exists k :: 0 <= k < |shots| && CleanUrl(shots[k].imageUrl) == u
  {
    set k | 0 <= k < |shots| :: CleanUrl(shots[k].imageUrl)
  }

  lemma CleanUrlsSnoc(shots: seq<Shot>, s: Shot)
    ensures CleanUrls(shots + [s]) == CleanUrls(shots) + {CleanUrl(s.imageUrl)}
  {
    var r := shots + [s];
    forall u | u in CleanUrls(shots) ensures u in CleanUrls(r) {
      var k :| 0 <= k < |shots| && CleanUrl(shots[k].imageUrl) == u;
      assert r[k] == shots[k];
    }
    assert r[|shots|] == s;
  }

  /** The shot a match becomes: stripped address, stripped and shortened title. */
  function ShotOf(m: ImageMatch): Shot {
    Shot(ShotTitle(Strip(m.alt)), Strip(m.url))
  }

  /** One match: its shot is kept unless its query-less address was seen or it is an avatar. */
  function AddShot(prev: seq<Shot>, s: Shot): seq<Shot> {
    if CleanUrl(s.imageUrl) !in CleanUrls(prev) && !IsAvatar(s.imageUrl) then prev + [s] else prev
  }

  /** The shots of a profile page: one per query-less address, the first, skipping avatars. */
  function ProfileShots(ms: seq<ImageMatch>): seq<Shot>
    decreases |ms|
  {
    if ms == [] then [] else AddShot(ProfileShots(ms[..|ms| - 1]), ShotOf(ms[|ms| - 1]))
  }

  /** What the profile's shots satisfy: distinct query-less addresses, no avatar, titles of 1 to 80 characters. */
  predicate GoodShots(r: seq<Shot>) {
    && (forall i, j :: 0 <= i < j < |r| ==> CleanUrl(r[i].imageUrl) != CleanUrl(r[j].imageUrl))
    && (forall k :: 0 <= k < |r| ==> !IsAvatar(r[k].imageUrl) && 1 <= |r[k].title| <= 80)
  }

  lemma AddShotKeeps(prev: seq<Shot>, s: Shot)
    requires GoodShots(prev) && 1 <= |s.title| <= 80
    ensures GoodShots(AddShot(prev, s))
  {
    if CleanUrl(s.imageUrl) !in CleanUrls(prev) && !IsAvatar(s.imageUrl) {
      var r := prev + [s];
      forall i, j | 0 <= i < j < |r| ensures CleanUrl(r[i].imageUrl) != CleanUrl(r[j].imageUrl) {
        assert r[i] == prev[i];
        if j < |prev| {
          assert r[j] == prev[j];
        }
      }
      forall k | 0 <= k < |r| ensures !IsAvatar(r[k].imageUrl) && 1 <= |r[k].title| <= 80 {
        if k < |prev| {
          assert r[k] == prev[k];
        }
      }
    }
  }

  /** A profile's shots have distinct query-less addresses, no avatar, and titles of 1 to 80 characters. */
  lemma {:induction false} ProfileShotsFacts(ms: seq<ImageMatch>)
    ensures GoodShots(ProfileShots(ms))
    decreases |ms|
  {
    if ms != [] {
      ProfileShotsFacts(ms[..|ms| - 1]);
      AddShotKeeps(ProfileShots(ms[..|ms| - 1]), ShotOf(ms[|ms| - 1]));
    }
  }

  /** One turn of the loop over the image matches. */
  lemma ShotsStep(ms: seq<ImageMatch>, i: nat, shots: seq<Shot>)
    requires i < |ms| && shots == ProfileShots(ms[..i])
    ensures ProfileShots(ms[..i + 1]) == AddShot(shots, ShotOf(ms[i]))
    ensures CleanUrls(shots + [ShotOf(ms[i])]) == CleanUrls(shots) + {CleanUrl(ShotOf(ms[i]).imageUrl)}
  {
    assert ms[..i + 1][..i] == ms[..i];
    CleanUrlsSnoc(shots, ShotOf(ms[i]));
  }

  /** `scrape_designer_shots`: nothing when the page could not be fetched, else the loop over the image matches. */
  method ScrapeDesignerShots(page: Option<seq<ImageMatch>>) returns (shots: seq<Shot>)
    ensures page.None? ==> shots == []
    ensures page.Some? ==> shots == ProfileShots(page.value)
  {
    if page.None? {
      return [];
    }
    var ms := page.value;
    shots := [];
    var seenUrls: set<string> := {};
    for i := 0 to |ms|
      invariant shots == ProfileShots(ms[..i])
      invariant seenUrls == CleanUrls(shots)
    {
      ShotsStep(ms, i, shots);
      var s := ShotOf(ms[i]);
      var clean := CleanUrl(s.imageUrl);
      if clean !in seenUrls && !IsAvatar(s.imageUrl) {
        seenUrls := seenUrls + {clean};
        shots := shots + [s];
      }
    }
    assert ms[..|ms|] == ms;
  }

  // ---------------------------------------------------------------------------------------
  // `download_images`: naming and keeping the downloaded images

  /** The characters `[a-zA-Z0-9_\-]` keeps in a file name. */
  predicate SafeChar(c: char) {
    ('a' <= c <= 'z') || ('A' <= c <= 'Z') || ('0' <= c <= '9') || c == '_' || c == '-'
  }

  /** `re.sub(r"[^a-zA-Z0-9_\-]", "_", title.lower())[:width]`. */
  function CleanTitle(title: string, width: nat): (r: string)
    ensures |r| <= width && |r| <= |title|
    ensures forall k :: 0 <= k < |r| ==> SafeChar(r[k])
    ensures forall k :: 0 <= k < |r| ==> r[k] == if SafeChar(LowerChar(title[k])) then LowerChar(title[k]) else '_'
  {
    var safe := seq(|title|, k requires 0 <= k < |title| =>
      if SafeChar(LowerChar(title[k])) then LowerChar(title[k]) else '_');
    Take(safe, width)
  }

  const Png: string := ".png"
  const Gif: string := ".gif"
  const Webp: string := ".webp"
  const Jpg: string := ".jpg"

  /** The extension the address suggests: ".png", else ".gif", else ".webp", else ".jpg". */
  function Extension(url: string): (r: string)
    ensures r == Png || r == Gif || r == Webp || r == Jpg
    ensures r == Jpg <==> !Contains(Lower(url), Png) && !Contains(Lower(url), Gif) && !Contains(Lower(url), Webp)
  {
    var lower := Lower(url);
    if Contains(lower, Png) then Png
    else if Contains(lower, Gif) then Gif
    else if Contains(lower, Webp) then Webp
    else Jpg
  }

  /** `f"{clean_title}_{idx}{ext}"`. */
  function ImageFileName(title: string, idx: nat, url: string): string {
    CleanTitle(title, 40) + "_" + NatToString(idx) + Extension(url)
  }

  /** `f"scraped_images/{username}/{filename}"`. */
  function ImagePath(username: string, title: string, idx: nat, url: string): string {
    "scraped_images/" + username + "/" + ImageFileName(title, idx, url)
  }

  /**
   * The file name stays inside the designer's folder: it has no '/' (nor any character outside
   * `[a-zA-Z0-9_.-]`), and it ends with the chosen extension.
   */
  lemma ImageFileNameIsSafe(title: string, idx: nat, url: string)
    ensures var name := ImageFileName(title, idx, url);
      && (forall k :: 0 <= k < |name| ==> SafeChar(name[k]) || name[k] == '.')
      && |name| >= |Extension(url)| && name[|name| - |Extension(url)|..] == Extension(url)
  {
    var clean := CleanTitle(title, 40);
    var digits := NatToString(idx);
    var ext := Extension(url);
    var name := ImageFileName(title, idx, url);
    assert name == (clean + "_" + digits) + ext;
    forall k | 0 <= k < |name| ensures SafeChar(name[k]) || name[k] == '.' {
      if k < |clean| {
        assert name[k] == clean[k];
      } else if k == |clean| {
        assert name[k] == '_';
      } else if k < |clean| + 1 + |digits| {
        assert name[k] == digits[k - |clean| - 1];
      } else {
        assert name[k] == ext[k - |clean| - 1 - |digits|];
      }
    }
  }

  /** What the download of an address gives: `None` when it raised, else the size of the body. */
  type Fetch = string -> Option<nat>

  /** A kept image: its title, the address it came from, and where it is saved. */
  datatype Download = Download(title: string, originalUrl: string, localPath: string)

  /**
   * The downloads of `shots`, the `k`-th numbered `k`: a shot with no address is skipped, one
   * whose download raised or gave fewer than 1000 bytes is not kept.
   */
  function Downloads(username: string, shots: seq<Shot>, fetch: Fetch): (r: seq<Download>)
    ensures |r| <= |shots|
    decreases |shots|
  {
    if shots == [] then []
    else
      var prev := Downloads(username, shots[..|shots| - 1], fetch);
      var idx := |shots| - 1;
      var shot := shots[idx];
      if shot.imageUrl == [] then prev
      else
        match fetch(shot.imageUrl)
        case None => prev
        case Some(size) =>
          if size < 1000 then prev
          else prev + [Download(shot.title, shot.imageUrl, ImagePath(username, shot.title, idx, shot.imageUrl))]
  }

  /**
   * Every kept image comes from one of the shots, has a non-empty address
   * whose download gave at least 1000 bytes, and is saved under the designer's folder with the
   * name of that shot's title, position and extension.
   */
  lemma {:induction false} DownloadsFacts(username: string, shots: seq<Shot>, fetch: Fetch)
    ensures forall d :: d in Downloads(username, shots, fetch) ==>
      exists idx :: (0 <= idx < |shots| && shots[idx].imageUrl == d.originalUrl && shots[idx].title == d.title
        && d.originalUrl != [] && fetch(d.originalUrl).Some? && fetch(d.originalUrl).value >= 1000
        && d.localPath == ImagePath(username, d.title, idx, d.originalUrl))
    decreases |shots|
  {
    if shots != [] {
      var init := shots[..|shots| - 1];
      DownloadsFacts(username, init, fetch);
      forall d | d in Downloads(username, shots, fetch)
        ensures exists idx :: (0 <= idx < |shots| && shots[idx].imageUrl == d.originalUrl && shots[idx].title == d.title
          && d.originalUrl != [] && fetch(d.originalUrl).Some? && fetch(d.originalUrl).value >= 1000
          && d.localPath == ImagePath(username, d.title, idx, d.originalUrl))
      {
        if d in Downloads(username, init, fetch) {
          var idx :| 0 <= idx < |init| && init[idx].imageUrl == d.originalUrl && init[idx].title == d.title
            && d.originalUrl != [] && fetch(d.originalUrl).Some? && fetch(d.originalUrl).value >= 1000
            && d.localPath == ImagePath(username, d.title, idx, d.originalUrl);
          assert shots[idx] == init[idx];
        } else {
          assert shots[|shots| - 1].imageUrl == d.originalUrl;
        }
      }
    }
  }

  /** The downloads of one more shot: the shot at `idx` is kept or skipped. */
  lemma DownloadsSnoc(username: string, shots: seq<Shot>, idx: nat, fetch: Fetch)
    requires idx < |shots|
    ensures Downloads(username, shots[..idx + 1], fetch) ==
      if shots[idx].imageUrl == [] || fetch(shots[idx].imageUrl).None? || fetch(shots[idx].imageUrl).value < 1000
      then Downloads(username, shots[..idx], fetch)
      else (Downloads(username, shots[..idx], fetch)
        + [Download(shots[idx].title, shots[idx].imageUrl, ImagePath(username, shots[idx].title, idx, shots[idx].imageUrl))])
  {
    assert shots[..idx + 1][..idx] == shots[..idx];
    assert shots[..idx + 1][idx] == shots[idx];
  }

  /**
   * `download_images(username, shots, max_images)`: the loop over `shots[:max_images]` with
   * their positions.
   */
  method DownloadImages(username: string, shots: seq<Shot>, maxImages: int, fetch: Fetch) returns (downloaded: seq<Download>)
    ensures downloaded == Downloads(username, Take(shots, maxImages), fetch)
    ensures maxImages >= 0 ==> |downloaded| <= maxImages
  {
    if shots == [] {
      return [];
    }
    var considered := Take(shots, maxImages);
    downloaded := [];
    for idx := 0 to |considered|
      invariant downloaded == Downloads(username, considered[..idx], fetch)
    {
      DownloadsSnoc(username, considered, idx, fetch);
      var shot := considered[idx];
      if shot.imageUrl == [] {
        continue;
      }
      var size := fetch(shot.imageUrl);
      if size.None? || size.value < 1000 {
        continue;
      }
      downloaded := downloaded + [Download(shot.title, shot.imageUrl, ImagePath(username, shot.title, idx, shot.imageUrl))];
    }
    assert considered[..|considered|] == considered;
  }

  // ---------------------------------------------------------------------------------------
  // `run_scraper`: merging the shots and assembling the records

  /** The addresses of some shots. */
  function Urls(shots: seq<Shot>): (r: set<string>)
    ensures forall u :: u in r <==> exists k :: 0 <= k < |shots| && shots[k].imageUrl == u
  {
    set k | 0 <= k < |shots| :: shots[k].imageUrl
  }

  /** The profile shots whose address is not in `existing`, in order. */
  function NewShots(profileShots: seq<Shot>, existing: set<string>): (r: seq<Shot>)
    ensures forall s :: s in r <==> s in profileShots && s.imageUrl !in existing
    decreases |profileShots|
  {
    if profileShots == [] then []
    else
      var init := profileShots[..|profileShots| - 1];
      var last := profileShots[|profileShots| - 1];
      assert profileShots == init + [last];
      NewShots(init, existing) + (if last.imageUrl !in existing then [last] else [])
  }

  /**
   * The shots of a designer: the search shots first; when there are fewer than `numImages`,
   * the profile shots whose address none of the search shots has, after them in page order.
   */
  function MergedShots(searchShots: seq<Shot>, profileShots: seq<Shot>, numImages: int): (r: seq<Shot>)
    ensures |r| >= |searchShots| && r[..|searchShots|] == searchShots
    ensures |searchShots| >= numImages ==> r == searchShots
    ensures forall s :: s in r[|searchShots|..] <==>
      |searchShots| < numImages && s in profileShots && s.imageUrl !in Urls(searchShots)
  {
    if |searchShots| < numImages then searchShots + NewShots(profileShots, Urls(searchShots)) else searchShots
  }

  lemma NewShotsSnoc(profileShots: seq<Shot>, i: nat, existing: set<string>)
    requires i < |profileShots|
    ensures NewShots(profileShots[..i + 1], existing) ==
      NewShots(profileShots[..i], existing) + (if profileShots[i].imageUrl !in existing then [profileShots[i]] else [])
  {
    assert profileShots[..i + 1][..i] == profileShots[..i];
  }

  /** The loop appending the new profile shots; the set of search addresses is taken once, before it. */
  method AppendNewShots(shots: seq<Shot>, profileShots: seq<Shot>) returns (merged: seq<Shot>)
    ensures merged == shots + NewShots(profileShots, Urls(shots))
  {
    var existing := Urls(shots);
    merged := shots;
    for i := 0 to |profileShots|
      invariant merged == shots + NewShots(profileShots[..i], existing)
    {
      NewShotsSnoc(profileShots, i, existing);
      if profileShots[i].imageUrl !in existing {
        merged := merged + [profileShots[i]];
      }
    }
    assert profileShots[..|profileShots|] == profileShots;
  }

  /** `profile.get("social_links", {})`, a list of links becoming `{"other": list}`. */
  function SocialLinks(profile: Json): (r: Json)
    requires profile.JObj?
    ensures Get(profile, "social_links", JObj([])).value.JArr? ==>
      r == JObj([("other", Get(profile, "social_links", JObj([])).value)])
    ensures !Get(profile, "social_links", JObj([])).value.JArr? ==> r == Get(profile, "social_links", JObj([])).value
  {
    var links := Get(profile, "social_links", JObj([])).value;
    if links.JArr? then JObj([("other", links)]) else links
  }

  /** `profile.get("name") or designer_stub.get("display_name", "")`. */
  function DesignerName(profile: Json, d: Designer): (r: Json)
    requires profile.JObj?
    ensures Truthy(Get(profile, "name", JNull).value) ==> r == Get(profile, "name", JNull).value
    ensures !Truthy(Get(profile, "name", JNull).value) ==> r == JStr(d.displayName)
  {
    var name := Get(profile, "name", JNull).value;
    if Truthy(name) then name else JStr(d.displayName)
  }

  function DownloadJson(d: Download): Json {
    JObj([("title", JStr(d.title)), ("original_url", JStr(d.originalUrl)), ("local_path", JStr(d.localPath))])
  }

  /** The record of one designer, from its profile, its merged shots and its kept images. */
  function Record(d: Designer, profile: Json, shots: seq<Shot>, downloads: seq<Download>, now: string): Json
    requires profile.JObj?
  {
    JObj([
      ("username", JStr(d.username)),
      ("name", DesignerName(profile, d)),
      ("profile_url", JStr(DribbbleUrl + d.username)),
      ("location", Get(profile, "location", JNull).value),
      ("bio", Get(profile, "bio", JNull).value),
      ("metrics", JObj([
        ("followers_count", Get(profile, "followers_count", JNull).value),
        ("following_count", Get(profile, "following_count", JNull).value),
        ("likes_count", Get(profile, "likes_count", JNull).value)])),
      ("contact", JObj([
        ("email", Get(profile, "contact_email", JNull).value),
        ("phone", Get(profile, "phone", JNull).value),
        ("portfolio_website", Get(profile, "portfolio_website", JNull).value)])),
      ("skills", Get(profile, "skills", JArr([])).value),
      ("social_links", SocialLinks(profile)),
      ("shots", JArr(seq(|downloads|, k requires 0 <= k < |downloads| => DownloadJson(downloads[k])))),
      ("total_shots_found", JNum(|shots|)),
      ("total_images_downloaded", JNum(|downloads|)),
      ("scraped_at", JStr(now))])
  }

  /**
   * What the scraper learns about one designer from outside: the model's reply for its about
   * page, the image matches of its profile page, and the downloads.
   */
  datatype Sources = Sources(reply: string -> Option<string>, loads: Loads, page: string -> Option<seq<ImageMatch>>, fetch: Fetch)

  /** The shots of designer `d`: the profile page is read only when the search shots are too few. */
  function ShotsFor(d: Designer, src: Sources, numImages: int): seq<Shot> {
    MergedShots(d.searchShots,
      if |d.searchShots| < numImages && src.page(d.username).Some? then ProfileShots(src.page(d.username).value) else [],
      numImages)
  }

  /** The record `run_scraper` assembles for designer `d`. */
  function DesignerRecord(d: Designer, src: Sources, numImages: int, now: string): Json {
    var shots := ShotsFor(d, src, numImages);
    Record(d, ProfileOf(src.reply(d.username), src.loads), shots,
      Downloads(d.username, Take(shots, numImages), src.fetch), now)
  }

  /** One designer of `run_scraper`'s loop: profile, shots (merged when too few), downloads, record. */
  method ScrapeDesigner(d: Designer, src: Sources, numImages: int, now: string) returns (record: Json)
    ensures record == DesignerRecord(d, src, numImages, now)
  {
    var profile := ProfileOf(src.reply(d.username), src.loads);
    var shots := d.searchShots;
    if |shots| < numImages {
      var profileShots := ScrapeDesignerShots(src.page(d.username));
      shots := AppendNewShots(shots, profileShots);
    }
    var downloaded := DownloadImages(d.username, shots, numImages, src.fetch);
    record := Record(d, profile, shots, downloaded, now);
  }

  /** What `run_scraper` writes when the search found no designer. */
  function NoDesigners(keyword: string): Json {
    JObj([("metadata", JObj([("keyword", JStr(keyword)), ("error", JStr("No designers found"))])), ("designers", JArr([]))])
  }

  function Output(keyword: string, numUsers: int, numImages: int, now: string, records: seq<Json>): Json {
    JObj([
      ("metadata", JObj([
        ("keyword", JStr(keyword)),
        ("num_users_requested", JNum(numUsers)),
        ("num_users_scraped", JNum(|records|)),
        ("num_images_per_profile", JNum(numImages)),
        ("scraped_at", JStr(now))])),
      ("designers", JArr(records))])
  }

  /** The records of some designers, in order, `record` giving each one's. */
  function Records(designers: seq<Designer>, record: Designer -> Json): (r: seq<Json>)
    ensures |r| == |designers|
    decreases |designers|
  {
    if designers == [] then []
    else Records(designers[..|designers| - 1], record) + [record(designers[|designers| - 1])]
  }

  lemma RecordsSnoc(designers: seq<Designer>, i: nat, record: Designer -> Json)
    requires i < |designers|
    ensures Records(designers[..i + 1], record) == Records(designers[..i], record) + [record(designers[i])]
  {
    assert designers[..i + 1][..i] == designers[..i];
  }

  /** One record per designer: the `k`-th record is the `k`-th designer's. */
  lemma {:induction false} RecordsAt(designers: seq<Designer>, record: Designer -> Json, k: nat)
    requires k < |designers|
    ensures Records(designers, record)[k] == record(designers[k])
    decreases |designers|
  {
    var init := designers[..|designers| - 1];
    if k < |init| {
      RecordsAt(init, record, k);
    }
  }

  /**
   * `run_scraper` after the search: the error output when no designer was found, else one
   * record per designer, in search order.
   */
  method RunScraper(keyword: string, designers: seq<Designer>, src: Sources, numUsers: int, numImages: int, now: string)
    returns (output: Json)
    ensures designers == [] ==> output == NoDesigners(keyword)
    ensures designers != [] ==>
      output == Output(keyword, numUsers, numImages, now, Records(designers, d => DesignerRecord(d, src, numImages, now)))
  {
    if designers == [] {
      return NoDesigners(keyword);
    }
    var results: seq<Json> := [];
    ghost var record := d => DesignerRecord(d, src, numImages, now);
    for i := 0 to |designers|
      invariant results == Records(designers[..i], record)
    {
      var r := ScrapeDesigner(designers[i], src, numImages, now);
      RecordsSnoc(designers, i, record);
      results := results + [r];
    }
    assert designers[..|designers|] == designers;
    output := Output(keyword, numUsers, numImages, now, results);
  }
}
