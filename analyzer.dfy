/**
 * The designer analyzer: the MIME type an image is sent with, the assessment kept from the
 * model's reply (or the fallback), and the profile each scraped designer becomes. The model's
 * reply is a parameter; `json.loads` and the float rounding of `overall_rating` are oracles.
 */
module Analyzer {
  import opened Wrappers
  import opened Text
  import opened Json
  import opened Recovery
  import Scraper

  // ---------------------------------------------------------------------------------------
  // `_detect_mime_type`

  /** `s` is made of dots only. */
  predicate DotsOnly(s: string) {
    forall k | 0 <= k < |s| :: s[k] == '.'
  }

  /** Where the last path component of `path` starts. */
  function StemStart(path: string): (r: nat)
    ensures r <= |path|
  {
    if '/' in path then LastIndexOf(path, '/') + 1 else 0
  }

  /**
   * `os.path.splitext(path)[1]` for POSIX paths: from the last '.' of the last path component
   * to the end, unless that component holds no other character than leading dots before it.
   */
  function SplitExt(path: string): (r: string)
    ensures r == [] || (r[0] == '.' && '.' !in r[1..] && '/' !in r)
    ensures |r| <= |path| && r == path[|path| - |r|..]
  {
    if '.' !in path then []
    else
      var dot := LastIndexOf(path, '.');
      var start := StemStart(path);
      if dot < start || DotsOnly(path[start..dot]) then []
      else
        assert '/' !in path[dot..] by {
          if '/' in path {
            assert forall k :: dot <= k < |path| ==> path[dot..][k - dot] == path[k];
          }
        }
        path[dot..]
  }

  const MimeTypes: map<string, string> := map[
    ".jpg" := "image/jpeg", ".jpeg" := "image/jpeg", ".png" := "image/png",
    ".gif" := "image/gif", ".webp" := "image/webp"]

  const DefaultMime: string := "image/jpeg"

  /** The MIME type of the image at `path`, by its lower-cased extension; "image/jpeg" by default. */
  function DetectMimeType(path: string): (r: string)
    ensures r in MimeTypes.Values
    ensures Lower(SplitExt(path)) in MimeTypes ==> r == MimeTypes[Lower(SplitExt(path))]
    ensures Lower(SplitExt(path)) !in MimeTypes ==> r == DefaultMime
  {
    var ext := Lower(SplitExt(path));
    assert MimeTypes[".jpg"] == DefaultMime;
    if ext in MimeTypes then MimeTypes[ext] else DefaultMime
  }

  /** `r` is the last index of `c` in `s` when `s[r]` is `c` and no `c` follows it. */
  lemma LastIndexOfIs(s: string, c: char, r: nat)
    requires r < |s| && s[r] == c && forall k | r < k < |s| :: s[k] != c
    ensures LastIndexOf(s, c) == r
  {
    var l := LastIndexOf(s, c);
    forall k | l < k < |s| ensures s[k] != c {
      assert s[l + 1..][k - l - 1] == s[k];
    }
  }

  /** Lower-casing moves no separator: a '.' or '/' is last at the same index before and after. */
  lemma LastSeparatorLower(s: string, c: char)
    requires c == '.' || c == '/'
    ensures c in Lower(s) <==> c in s
    ensures c in s ==> LastIndexOf(Lower(s), c) == LastIndexOf(s, c)
  {
    var ls := Lower(s);
    assert forall k | 0 <= k < |s| :: ls[k] == c <==> s[k] == c;
    if c in s {
      var r := LastIndexOf(s, c);
      forall k | r < k < |ls| ensures ls[k] != c {
        assert s[r + 1..][k - r - 1] == s[k];
      }
      LastIndexOfIs(ls, c, r);
    } else {
      assert forall k | 0 <= k < |ls| :: ls[k] != c;
    }
  }

  lemma LowerSlice(s: string, i: nat, j: nat)
    requires i <= j <= |s|
    ensures Lower(s)[i..j] == Lower(s[i..j])
  {
  }

  lemma DotsOnlyLower(s: string)
    ensures DotsOnly(Lower(s)) <==> DotsOnly(s)
  {
    var ls := Lower(s);
    assert forall k | 0 <= k < |s| :: ls[k] == '.' <==> s[k] == '.';
  }

  /** The extension of the lower-cased path is the lower-cased extension. */
  lemma SplitExtLower(path: string)
    ensures SplitExt(Lower(path)) == Lower(SplitExt(path))
  {
    var lp := Lower(path);
    LastSeparatorLower(path, '.');
    LastSeparatorLower(path, '/');
    assert StemStart(lp) == StemStart(path);
    if '.' in path {
      var dot := LastIndexOf(path, '.');
      var start := StemStart(path);
      if start <= dot {
        LowerSlice(path, start, dot);
        DotsOnlyLower(path[start..dot]);
      }
      LowerSlice(path, dot, |path|);
      assert lp[dot..] == lp[dot..|path|] && path[dot..] == path[dot..|path|];
    }
  }

  /** The MIME type does not depend on the case of the path. */
  lemma DetectMimeTypeIgnoresCase(path: string)
    ensures DetectMimeType(Lower(path)) == DetectMimeType(path)
  {
    SplitExtLower(path);
    LowerIdempotent(SplitExt(path));
  }

  /**
   * A path whose last component is a non-empty stem without dots followed by an extension (a
   * dot, then no dot and no '/') has that extension.
   */
  lemma SplitExtOfName(dir: string, stem: string, ext: string)
    requires stem != [] && '.' !in stem && '/' !in stem
    requires ext != [] && ext[0] == '.' && '.' !in ext[1..] && '/' !in ext
    ensures SplitExt(dir + "/" + stem + ext) == ext
  {
    var path := dir + "/" + stem + ext;
    var dot := |dir| + 1 + |stem|;
    var start := |dir| + 1;
    assert path[dot] == '.';
    forall k | dot < k < |path| ensures path[k] != '.' {
      assert path[k] == ext[1..][k - dot - 1];
    }
    LastIndexOfIs(path, '.', dot);
    assert path[|dir|] == '/';
    forall k | |dir| < k < |path| ensures path[k] != '/' {
      if k < dot {
        assert path[k] == stem[k - start];
      } else {
        assert path[k] == ext[k - dot];
      }
    }
    LastIndexOfIs(path, '/', |dir|);
    assert StemStart(path) == start;
    assert path[start..dot][0] == stem[0] && stem[0] != '.';
    assert path[dot..] == ext;
  }

  /** An extension the scraper may choose is lower case, in the MIME table and a plain suffix. */
  predicate PlainKnownExt(ext: string) {
    && Lower(ext) == ext && ext in MimeTypes
    && ext != [] && ext[0] == '.' && '.' !in ext[1..] && '/' !in ext
  }

  /** A dot followed by three or four lower-case letters is a plain lower-case suffix. */
  lemma LowerExtension(ext: string)
    requires |ext| == 4 || |ext| == 5
    requires ext[0] == '.' && forall k | 1 <= k < |ext| :: 'a' <= ext[k] <= 'z'
    ensures Lower(ext) == ext && '.' !in ext[1..] && '/' !in ext
  {
    assert forall k | 0 <= k < |ext| :: Lower(ext)[k] == ext[k];
  }

  /** The four extensions the scraper chooses are lower case and in the MIME table. */
  lemma ScraperExtensionKnown(url: string)
    ensures PlainKnownExt(Scraper.Extension(url))
  {
    var ext := Scraper.Extension(url);
    LowerExtension(ext);
  }

  /** The scraper's file name before its extension has no '.' and no '/'. */
  lemma ScraperStemPlain(title: string, idx: nat)
    ensures var stem := Scraper.CleanTitle(title, 40) + "_" + NatToString(idx);
      stem != [] && '.' !in stem && '/' !in stem
  {
    var clean := Scraper.CleanTitle(title, 40);
    var digits := NatToString(idx);
    var stem := clean + "_" + digits;
    forall k | 0 <= k < |stem| ensures stem[k] != '.' && stem[k] != '/' {
      if k < |clean| {
        assert stem[k] == clean[k] && Scraper.SafeChar(clean[k]);
      } else if k > |clean| {
        assert stem[k] == digits[k - |clean| - 1];
      }
    }
  }

  /**
   * The analyzer sends an image the scraper saved with the type its extension names: ".png" as
   * "image/png", ".gif" as "image/gif", ".webp" as "image/webp" and ".jpg" as "image/jpeg".
   */
  lemma SavedImageMimeType(username: string, title: string, idx: nat, url: string)
    ensures var ext := Scraper.Extension(url);
      ext in MimeTypes && DetectMimeType(Scraper.ImagePath(username, title, idx, url)) == MimeTypes[ext]
  {
    var ext := Scraper.Extension(url);
    var stem := Scraper.CleanTitle(title, 40) + "_" + NatToString(idx);
    var dir := "scraped_images/" + username;
    ScraperExtensionKnown(url);
    ScraperStemPlain(title, idx);
    assert Scraper.ImagePath(username, title, idx, url) == dir + "/" + stem + ext;
    SplitExtOfName(dir, stem, ext);
  }

  // ---------------------------------------------------------------------------------------
  // `analyze_designer`: the assessment

  /**
   * `round(overall_rating / 5.0 * 100)` for the rating a reply carries (2.5 when it has none);
   * `None` when the computation raises (a rating that is not a number, a NaN, an infinity).
   */
  type Rounding = Json -> Option<int>

  const DefaultRating: Json := JFloat("2.5")

  function Rated(reasoning: string): Json {
    JObj([("rating", DefaultRating), ("reasoning", JStr(reasoning))])
  }

  /** The assessment used when the model's reply gives none. */
  const Fallback: Json := JObj([
    ("overall_rating", DefaultRating),
    ("overall_score", JNum(50)),
    ("metrics", JObj([
      ("design_excellence", Rated("Analysis failed")),
      ("ux_mastery", Rated("Analysis failed")),
      ("industry_expertise", Rated("Analysis failed")),
      ("technical_sophistication", Rated("Analysis failed")),
      ("innovation_creativity", Rated("Analysis failed")),
      ("specialization_alignment", Rated("Analysis failed")),
      ("market_positioning", Rated("Analysis failed"))])),
    ("strengths", JArr([JStr("Manual review required")])),
    ("areas_for_improvement", JArr([JStr("Analysis failed")])),
    ("recommendation", JObj([
      ("decision", JStr("CONSIDER")),
      ("confidence", JStr("LOW")),
      ("reasoning", JStr("Automated analysis failed \U{2014} manual review needed")),
      ("suitable_roles", JArr([JStr("Unknown")]))])),
    ("detailed_feedback", JObj([
      ("what_stands_out", JStr("Analysis failed")),
      ("biggest_concerns", JStr("System error")),
      ("growth_potential", JStr("Unknown")),
      ("industry_fit", JStr("Unknown"))]))])

  /** The fallback scores 50 and recommends "CONSIDER". */
  lemma FallbackVerdict()
    ensures Get(Fallback, "overall_score", JNull) == Some(JNum(50))
    ensures Get(Fallback, "recommendation", JObj([])).value.JObj?
    ensures Get(Get(Fallback, "recommendation", JObj([])).value, "decision", JNull) == Some(JStr("CONSIDER"))
  {
    GetAt(Fallback, 1, JNull);
    GetAt(Fallback, 5, JObj([]));
    GetAt(Fallback.members[5].1, 0, JNull);
  }

  /** Looking a key up after appending a member with another key finds what it found before. */
  lemma LookupAppendOther(ms: seq<(string, Json)>, m: (string, Json), key: string)
    requires m.0 != key
    ensures Lookup(ms + [m], key) == Lookup(ms, key)
  {
    if ms != [] {
      assert (ms + [m])[1..] == ms[1..] + [m];
      LookupAppendOther(ms[1..], m, key);
    }
  }

  /** Looking up the key of an appended member finds it when the key was missing before. */
  lemma LookupAppendNew(ms: seq<(string, Json)>, m: (string, Json))
    requires Lookup(ms, m.0).None?
    ensures Lookup(ms + [m], m.0) == Some(m.1)
  {
    if ms != [] {
      assert (ms + [m])[1..] == ms[1..] + [m];
      LookupAppendNew(ms[1..], m);
    }
  }

  /**
   * A parsed dict with an "overall_score" is kept as it is; one without gets the rounded
   * rating appended under that key, unless the rounding raises.
   */
  function Scored(parsed: Json, round: Rounding): (r: Option<Json>)
    requires parsed.JObj?
    ensures r.Some? ==> r.value.JObj? && HasKey(r.value, "overall_score")
    ensures HasKey(parsed, "overall_score") ==> r == Some(parsed)
    ensures !HasKey(parsed, "overall_score") ==>
      (r.Some? <==> round(Get(parsed, "overall_rating", DefaultRating).value).Some?)
    ensures r.Some? ==> |r.value.members| >= |parsed.members| && r.value.members[..|parsed.members|] == parsed.members
    ensures r.Some? ==> forall key :: key != "overall_score" ==> Lookup(r.value.members, key) == Lookup(parsed.members, key)
  {
    if HasKey(parsed, "overall_score") then Some(parsed)
    else
      match round(Get(parsed, "overall_rating", DefaultRating).value)
      case None => None
      case Some(n) =>
        var m := ("overall_score", JNum(n));
        LookupAppendNew(parsed.members, m);
        forall key | key != "overall_score" ensures Lookup(parsed.members + [m], key) == Lookup(parsed.members, key) {
          LookupAppendOther(parsed.members, m, key);
        }
        assert (parsed.members + [m])[..|parsed.members|] == parsed.members;
        Some(JObj(parsed.members + [m]))
  }

  /**
   * The assessment `analyze_designer` returns for the model's reply: the parsed dict (scored)
   * when the reply is non-empty, parses to a dict, its score can be computed and its
   * "recommendation" (default `{}`) is a dict; the fallback otherwise.
   */
  function Assess(reply: string, loads: Loads, round: Rounding): (r: Json)
    ensures r.JObj? && HasKey(r, "overall_score")
    ensures Get(r, "recommendation", JObj([])).value.JObj?
    ensures (|| reply == [] || Recover(AnalyzerStages, reply, loads).None?
             || !Recover(AnalyzerStages, reply, loads).value.JObj?) ==> r == Fallback
    ensures r != Fallback ==>
      && Recover(AnalyzerStages, reply, loads).Some?
      && var parsed := Recover(AnalyzerStages, reply, loads).value;
      && parsed.JObj? && |r.members| >= |parsed.members| && r.members[..|parsed.members|] == parsed.members
  {
    FallbackVerdict();
    if reply == [] then Fallback
    else
      match Recover(AnalyzerStages, reply, loads)
      case None => Fallback
      case Some(parsed) =>
        if !parsed.JObj? then Fallback
        else
          match Scored(parsed, round)
          case None => Fallback
          case Some(scored) =>
            if Get(scored, "recommendation", JObj([])).value.JObj? then scored else Fallback
  }

  /**
   * A reply that parses to a dict with a score and a dict recommendation is kept exactly; one
   * with a recommendation that is not a dict gives the fallback.
   */
  lemma AssessKeepsComplete(reply: string, loads: Loads, round: Rounding)
    requires reply != [] && Recover(AnalyzerStages, reply, loads).Some?
    requires var parsed := Recover(AnalyzerStages, reply, loads).value;
      parsed.JObj? && HasKey(parsed, "overall_score")
    ensures var parsed := Recover(AnalyzerStages, reply, loads).value;
      Assess(reply, loads, round) == if Get(parsed, "recommendation", JObj([])).value.JObj? then parsed else Fallback
  {
  }

  // ---------------------------------------------------------------------------------------
  // What the prompt building before the model call needs of a designer record

  /**
   * What `for x in value` iterates over, as far as the analyzer's loops see it: the items of a
   * list, the one-character strings of a string, the keys of a dict; `None` (a `TypeError`)
   * for anything else.
   */
  function Iterate(j: Json): (r: Option<seq<Json>>)
    ensures j.JArr? ==> r == Some(j.items)
    ensures r.None? <==> !(j.JArr? || j.JStr? || j.JObj?)
  {
    match j
    case JArr(items) => Some(items)
    case JStr(s) => Some(seq(|s|, k requires 0 <= k < |s| => JStr([s[k]])))
    case JObj(ms) => Some(seq(|ms|, k requires 0 <= k < |ms| => JStr(ms[k].0)))
    case _ => None
  }

  /** `for shot in shots: shot.get(...)` does not raise: every element iterated is a dict. */
  predicate DictsOnly(j: Json) {
    Iterate(j).Some? && forall x | x in Iterate(j).value :: x.JObj?
  }

  /** `", ".join(skills) if skills else ...` does not raise. */
  predicate Joinable(j: Json) {
    !Truthy(j) || (Iterate(j).Some? && forall x | x in Iterate(j).value :: x.JStr?)
  }

  /**
   * `analyze_designer` gets to the model call: the designer is a dict, its "metrics" a dict, its
   * "shots" iterate over dicts and its "skills" can be joined.
   */
  predicate PromptBuilds(designer: Json) {
    && designer.JObj?
    && Get(designer, "metrics", JObj([])).value.JObj?
    && DictsOnly(Get(designer, "shots", JArr([])).value)
    && Joinable(Get(designer, "skills", JArr([])).value)
  }

  /** `analyze_designer`: `None` when it raises before the model call, else the assessment. */
  function AnalyzeDesigner(designer: Json, reply: string, loads: Loads, round: Rounding): (r: Option<Json>)
    ensures r.Some? <==> PromptBuilds(designer)
    ensures r.Some? ==> r.value == Assess(reply, loads, round)
  {
    if PromptBuilds(designer) then Some(Assess(reply, loads, round)) else None
  }

  // ---------------------------------------------------------------------------------------
  // `analyze_all_designers`: flattening the social links

  /** `[v for v in items if v]`. */
  function TruthyItems(items: seq<Json>): (r: seq<Json>)
    ensures forall x :: x in r <==> x in items && Truthy(x)
    decreases |items|
  {
    if items == [] then []
    else
      var init := items[..|items| - 1];
      var last := items[|items| - 1];
      assert items == init + [last];
      TruthyItems(init) + (if Truthy(last) then [last] else [])
  }

  /** What one `(key, value)` of the links dict contributes to the flat list. */
  function LinksOf(m: (string, Json)): (r: seq<Json>)
  {
    if m.0 == "other" && m.1.JArr? then TruthyItems(m.1.items)
    else if m.1.JStr? && m.1.s != [] then [m.1]
    else []
  }

  /** The flat list of links of a dict's members, in order. */
  function FlatLinks(ms: seq<(string, Json)>): (r: seq<Json>)
    decreases |ms|
  {
    if ms == [] then [] else FlatLinks(ms[..|ms| - 1]) + LinksOf(ms[|ms| - 1])
  }

  /**
   * The flat list holds exactly the truthy entries of an "other" list and the non-empty string
   * values of the other keys (and of an "other" key that is not a list).
   */
  lemma FlatLinksMembers(ms: seq<(string, Json)>, x: Json)
    ensures x in FlatLinks(ms) <==> exists i :: 0 <= i < |ms| && x in LinksOf(ms[i])
  {
    if x in FlatLinks(ms) {
      var i := LinkFromFlat(ms, x);
    }
    if exists i :: 0 <= i < |ms| && x in LinksOf(ms[i]) {
      var i :| 0 <= i < |ms| && x in LinksOf(ms[i]);
      LinkInFlat(ms, i, x);
    }
  }

  /** A flattened link comes from some member of the dict. */
  lemma {:induction false} LinkFromFlat(ms: seq<(string, Json)>, x: Json) returns (i: nat)
    requires x in FlatLinks(ms)
    ensures i < |ms| && x in LinksOf(ms[i])
    decreases |ms|
  {
    var init := ms[..|ms| - 1];
    if x in FlatLinks(init) {
      i := LinkFromFlat(init, x);
      assert ms[i] == init[i];
    } else {
      i := |ms| - 1;
    }
  }

  lemma InLeft(a: seq<Json>, b: seq<Json>, x: Json)
    requires x in a
    ensures x in a + b
  {
  }

  lemma InRight(a: seq<Json>, b: seq<Json>, x: Json)
    requires x in b
    ensures x in a + b
  {
  }

  /** A link of any member of the dict is in the flat list. */
  lemma {:induction false} LinkInFlat(ms: seq<(string, Json)>, i: nat, x: Json)
    requires i < |ms| && x in LinksOf(ms[i])
    ensures x in FlatLinks(ms)
    decreases |ms|
  {
    var init := ms[..|ms| - 1];
    var last := LinksOf(ms[|ms| - 1]);
    assert FlatLinks(ms) == FlatLinks(init) + last;
    if i < |init| {
      assert init[i] == ms[i];
      LinkInFlat(init, i, x);
      InLeft(FlatLinks(init), last, x);
    } else {
      assert i == |ms| - 1;
      InRight(FlatLinks(init), last, x);
    }
  }

  /** Every flattened link is truthy: a non-empty string or a truthy entry of "other". */
  lemma FlatLinksTruthy(ms: seq<(string, Json)>)
    ensures forall x | x in FlatLinks(ms) :: Truthy(x)
  {
    forall x | x in FlatLinks(ms) ensures Truthy(x) {
      FlatLinksMembers(ms, x);
    }
  }

  /** The links loop: only a dict of links contributes, member by member in order. */
  method FlattenSocialLinks(links: Json) returns (flat: seq<Json>)
    ensures flat == if links.JObj? then FlatLinks(links.members) else []
  {
    flat := [];
    if links.JObj? {
      var ms := links.members;
      for i := 0 to |ms|
        invariant flat == FlatLinks(ms[..i])
      {
        assert ms[..i + 1][..i] == ms[..i];
        var (key, val) := ms[i];
        if key == "other" && val.JArr? {
          flat := flat + TruthyItems(val.items);
        } else if val.JStr? && val.s != [] {
          flat := flat + [val];
        }
      }
      assert ms[..|ms|] == ms;
    }
  }

  // ---------------------------------------------------------------------------------------
  // `analyze_all_designers`: the profiles

  /** The `relevant_works` entry of the `i`-th shot. */
  function Work(i: nat, shot: Json): Json
    requires shot.JObj?
  {
    JObj([
      ("id", JStr(NatToString(i))),
      ("title", Get(shot, "title", JStr("")).value),
      ("images", JArr([JObj([
        ("original_url", Get(shot, "original_url", JStr("")).value),
        ("local_path", Get(shot, "local_path", JStr("")).value)])]))])
  }

  /** One entry per shot, in order, numbered from 0. */
  function Works(shots: seq<Json>): (r: seq<Json>)
    requires forall x | x in shots :: x.JObj?
  {
    seq(|shots|, i requires 0 <= i < |shots| => Work(i, shots[i]))
  }

  /** One work per shot, each with one image; the ids are distinct. */
  lemma WorksFacts(shots: seq<Json>)
    requires forall x | x in shots :: x.JObj?
    ensures |Works(shots)| == |shots|
    ensures forall i | 0 <= i < |shots| :: Get(Works(shots)[i], "id", JNull) == Some(JStr(NatToString(i)))
    ensures forall i | 0 <= i < |shots| ::
      Get(Works(shots)[i], "images", JNull).value.JArr? && |Get(Works(shots)[i], "images", JNull).value.items| == 1
    ensures forall i, j | 0 <= i < j < |shots| :: Get(Works(shots)[i], "id", JNull) != Get(Works(shots)[j], "id", JNull)
  {
    forall i | 0 <= i < |shots|
      ensures Get(Works(shots)[i], "id", JNull) == Some(JStr(NatToString(i)))
      ensures Get(Works(shots)[i], "images", JNull).value.JArr?
      ensures |Get(Works(shots)[i], "images", JNull).value.items| == 1
    {
      WorkFacts(i, shots[i]);
    }
    forall i, j | 0 <= i < j < |shots|
      ensures Get(Works(shots)[i], "id", JNull) != Get(Works(shots)[j], "id", JNull)
    {
      NatToStringRoundTrip(i);
      NatToStringRoundTrip(j);
    }
  }

  /** The `i`-th work has the id `i` and one image. */
  lemma WorkFacts(i: nat, shot: Json)
    requires shot.JObj?
    ensures Get(Work(i, shot), "id", JNull) == Some(JStr(NatToString(i)))
    ensures Get(Work(i, shot), "images", JNull).value.JArr?
    ensures |Get(Work(i, shot), "images", JNull).value.items| == 1
  {
    GetAt(Work(i, shot), 2, JNull);
  }

  /** The "original_data" of a designer's profile, with the flattened links. */
  function OriginalData(designer: Json, flat: seq<Json>): Json
    requires PromptBuilds(designer)
  {
    JObj([
      ("name", Get(designer, "name", JStr("")).value),
      ("username", Get(designer, "username", JStr("")).value),
      ("location", Get(designer, "location", JStr("")).value),
      ("bio", Get(designer, "bio", JStr("")).value),
      ("followers_count", Get(Get(designer, "metrics", JObj([])).value, "followers_count", JStr("0")).value),
      ("specializations", Get(designer, "skills", JArr([])).value),
      ("social_links", JArr(flat)),
      ("contact", Get(designer, "contact", JObj([])).value),
      ("profile_url", Get(designer, "profile_url", JStr("")).value)])
  }

  /** The works of a designer's profile: one per shot. */
  function DesignerWorks(designer: Json): Json
    requires PromptBuilds(designer)
  {
    JArr(Works(Iterate(Get(designer, "shots", JArr([])).value).value))
  }

  /** The profile object, from its parts. */
  function ProfileObject(originalData: Json, analysis: Json, works: Json, flat: seq<Json>, processedAt: Json): Json {
    JObj([
      ("original_data", originalData),
      ("final_analysis", analysis),
      ("relevant_works", works),
      ("social_media_links", JArr(flat)),
      ("processed_at", processedAt)])
  }

  /** The profile of a designer that got to the model call. */
  function Profile(designer: Json, analysis: Json, flat: seq<Json>): Json
    requires PromptBuilds(designer)
  {
    ProfileObject(OriginalData(designer, flat), analysis, DesignerWorks(designer), flat,
      Get(designer, "scraped_at", JStr("")).value)
  }

  /** The flat links of a designer record: its "social_links" when that is a dict, else none. */
  function DesignerLinks(designer: Json): seq<Json>
    requires designer.JObj?
  {
    var links := Get(designer, "social_links", JObj([])).value;
    if links.JObj? then FlatLinks(links.members) else []
  }

  /**
   * A profile carries the same flat list twice, as the original data's "social_links" and as
   * "social_media_links", and holds the assessment and the works.
   */
  lemma ProfileObjectFacts(originalData: Json, analysis: Json, works: Json, flat: seq<Json>, processedAt: Json)
    ensures var p := ProfileObject(originalData, analysis, works, flat, processedAt);
      && Get(p, "original_data", JNull) == Some(originalData)
      && Get(p, "final_analysis", JNull) == Some(analysis)
      && Get(p, "relevant_works", JNull) == Some(works)
      && Get(p, "social_media_links", JNull) == Some(JArr(flat))
  {
    var p := ProfileObject(originalData, analysis, works, flat, processedAt);
    GetAt(p, 0, JNull);
    ProfileMember(p, 1);
    ProfileMember(p, 2);
    ProfileMember(p, 3);
  }

  /** The first four keys of a profile object are distinct, so each is found where it is. */
  lemma ProfileMember(p: Json, i: nat)
    requires p.JObj? && 1 <= i <= 3 && |p.members| == 5
    requires p.members[0].0 == "original_data" && p.members[1].0 == "final_analysis"
    requires p.members[2].0 == "relevant_works" && p.members[3].0 == "social_media_links"
    ensures Get(p, p.members[i].0, JNull) == Some(p.members[i].1)
  {
    assert |"original_data"| == 13 && |"social_media_links"| == 18;
    assert "final_analysis"[0] != "relevant_works"[0];
    GetAt(p, i, JNull);
  }

  /** The original data lists the flattened links under "social_links". */
  lemma OriginalDataLinks(designer: Json, flat: seq<Json>)
    requires PromptBuilds(designer)
    ensures Get(OriginalData(designer, flat), "social_links", JNull) == Some(JArr(flat))
  {
    GetAt(OriginalData(designer, flat), 6, JNull);
  }

  /**
   * A designer's profile: the same flat list as the original data's "social_links" and as
   * "social_media_links", the assessment, and one work per shot.
   */
  lemma ProfileFacts(designer: Json, analysis: Json, flat: seq<Json>)
    requires PromptBuilds(designer)
    ensures var p := Profile(designer, analysis, flat);
      && Get(p, "social_media_links", JNull) == Some(JArr(flat))
      && Get(p, "original_data", JNull).value.JObj?
      && Get(Get(p, "original_data", JNull).value, "social_links", JNull) == Some(JArr(flat))
      && Get(p, "final_analysis", JNull) == Some(analysis)
      && Get(p, "relevant_works", JNull).value.JArr?
      && |Get(p, "relevant_works", JNull).value.items| == |Iterate(Get(designer, "shots", JArr([])).value).value|
  {
    ProfileObjectFacts(OriginalData(designer, flat), analysis, DesignerWorks(designer), flat,
      Get(designer, "scraped_at", JStr("")).value);
    OriginalDataLinks(designer, flat);
  }

  /** The profile of one designer, `None` when analysing it raises. */
  function ProfileFor(designer: Json, reply: string, loads: Loads, round: Rounding): (r: Option<Json>)
    ensures r.Some? <==> PromptBuilds(designer)
  {
    match AnalyzeDesigner(designer, reply, loads, round)
    case None => None
    case Some(analysis) => Some(Profile(designer, analysis, DesignerLinks(designer)))
  }

  /** The profiles of the designers in order (`build` giving the `k`-th), `None` when one fails. */
  function Profiles(designers: seq<Json>, build: (Json, nat) -> Option<Json>): (r: Option<seq<Json>>)
    ensures r.Some? ==> |r.value| == |designers|
    decreases |designers|
  {
    if designers == [] then Some([])
    else
      var n := |designers| - 1;
      match Profiles(designers[..n], build)
      case None => None
      case Some(ps) =>
        match build(designers[n], n)
        case None => None
        case Some(p) => Some(ps + [p])
  }

  /**
   * Exactly one profile per designer, in input order; the run fails exactly when building
   * some designer's profile fails.
   */
  lemma {:induction false} ProfilesFacts(designers: seq<Json>, build: (Json, nat) -> Option<Json>)
    ensures Profiles(designers, build).Some? <==> forall k | 0 <= k < |designers| :: build(designers[k], k).Some?
    ensures Profiles(designers, build).Some? ==>
      forall k | 0 <= k < |designers| :: Profiles(designers, build).value[k] == build(designers[k], k).value
    decreases |designers|
  {
    if designers != [] {
      var n := |designers| - 1;
      var init := designers[..n];
      ProfilesFacts(init, build);
      assert forall k | 0 <= k < n :: init[k] == designers[k];
    }
  }

  /** What `analyze_all_designers` builds for the `k`-th designer. */
  function Builder(replies: nat -> string, loads: Loads, round: Rounding): (Json, nat) -> Option<Json> {
    (d: Json, k: nat) => ProfileFor(d, replies(k), loads, round)
  }

  /** `analyze_all_designers`: `None` when it raises. */
  function AllProfiles(scraped: Json, replies: nat -> string, loads: Loads, round: Rounding): Option<seq<Json>> {
    if !scraped.JObj? then None
    else
      match Iterate(Get(scraped, "designers", JArr([])).value)
      case None => None
      case Some(designers) => Profiles(designers, Builder(replies, loads, round))
  }

  /** One designer: its assessment, its flattened links and its profile. */
  method AnalyzeOne(designer: Json, reply: string, loads: Loads, round: Rounding) returns (profile: Option<Json>)
    ensures profile == ProfileFor(designer, reply, loads, round)
  {
    var analysis := AnalyzeDesigner(designer, reply, loads, round);
    if analysis.None? {
      return None;
    }
    var flat := FlattenSocialLinks(Get(designer, "social_links", JObj([])).value);
    profile := Some(Profile(designer, analysis.value, flat));
  }

  /** The designer loop of `analyze_all_designers`, appending one profile per designer. */
  method AnalyzeAllDesigners(scraped: Json, replies: nat -> string, loads: Loads, round: Rounding)
    returns (processed: Option<seq<Json>>)
    ensures processed == AllProfiles(scraped, replies, loads, round)
  {
    if !scraped.JObj? {
      return None;
    }
    var designers := Iterate(Get(scraped, "designers", JArr([])).value);
    if designers.None? {
      return None;
    }
    var ds := designers.value;
    ghost var build := Builder(replies, loads, round);
    var profiles: seq<Json> := [];
    for i := 0 to |ds|
      invariant Profiles(ds[..i], build) == Some(profiles)
    {
      assert ds[..i + 1][..i] == ds[..i];
      var profile := AnalyzeOne(ds[i], replies(i), loads, round);
      assert profile == build(ds[i], i);
      if profile.None? {
        NoneSticks(ds, i + 1, build);
        return None;
      }
      profiles := profiles + [profile.value];
    }
    assert ds[..|ds|] == ds;
    processed := Some(profiles);
  }

  /** Once a prefix of the designers fails, the whole run fails. */
  lemma {:induction false} NoneSticks(ds: seq<Json>, n: nat, build: (Json, nat) -> Option<Json>)
    requires n <= |ds| && Profiles(ds[..n], build).None?
    ensures Profiles(ds, build).None?
    decreases |ds| - n
  {
    if n < |ds| {
      assert ds[..n + 1][..n] == ds[..n];
      NoneSticks(ds, n + 1, build);
    } else {
      assert ds[..n] == ds;
    }
  }
}
