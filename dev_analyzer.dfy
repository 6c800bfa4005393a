/**
 * The developer analyzer: reading a configuration value, summarising a GitHub GraphQL
 * response, and turning Gemini's evaluation reply into the evaluation stored with a candidate.
 * The network, the PDF reader and the language model are outside the model: the GraphQL
 * response, the parsed resume and the reply text are parameters.
 */
module DevAnalyzer {
  import opened Wrappers
  import opened Text
  import opened Json
  import opened Recovery
  import Sorting
  import Analyzer
  import DevRecords

  // ---------------------------------------------------------------------------------------
  // Configuration

  /** `os.getenv(key, default) or default`: the default when the variable is unset or empty. */
  function Chosen(value: Option<string>, default: string): string {
    if value.Some? && value.value != [] then value.value else default
  }

  /**
   * `_clean_env`: the chosen value with surrounding whitespace, then double quotes, then
   * single quotes stripped.
   */
  function CleanEnv(value: Option<string>, default: string): (r: string)
    ensures |r| <= |Chosen(value, default)|
    ensures r == [] || (r[0] != '\'' && r[|r| - 1] != '\'')
  {
    StripChar(StripChar(Strip(Chosen(value, default)), '"'), '\'')
  }

  /** A value with no whitespace and no quote at either end. */
  predicate Bare(k: string) {
    && k != [] && !IsSpace(k[0]) && !IsSpace(k[|k| - 1])
    && k[0] != '"' && k[0] != '\'' && k[|k| - 1] != '"' && k[|k| - 1] != '\''
  }

  /**
   * Cleaning undoes what a careless `.env` file adds: a bare value wrapped in matching double
   * quotes, single quotes or none, with whitespace around, reads back as the value itself.
   */
  lemma CleanEnvUnwraps(pre: string, quote: string, k: string, post: string, default: string)
    requires forall i | 0 <= i < |pre| :: IsSpace(pre[i])
    requires forall i | 0 <= i < |post| :: IsSpace(post[i])
    requires quote == "" || quote == "\"" || quote == "'"
    requires Bare(k)
    ensures CleanEnv(Some(pre + quote + k + quote + post), default) == k
  {
    var m := quote + k + quote;
    var v := pre + quote + k + quote + post;
    assert v == pre + m + post;
    assert Chosen(Some(v), default) == v;
    QuotedEnds(quote, k);
    StripSurrounded(pre, m, post);
    Unquotes(quote, k);
  }

  /** A bare value in matching quotes has no whitespace at either end. */
  lemma QuotedEnds(quote: string, k: string)
    requires quote == "" || quote == "\"" || quote == "'"
    requires Bare(k)
    ensures var m := quote + k + quote; m != [] && !IsSpace(m[0]) && !IsSpace(m[|m| - 1])
  {
    var m := quote + k + quote;
    if quote == [] {
      assert m == k;
    } else {
      assert m[0] == quote[0] && m[|m| - 1] == quote[0];
    }
  }

  /** The two quote strips of `_clean_env` remove one pair of matching quotes around a bare value. */
  lemma Unquotes(quote: string, k: string)
    requires quote == "" || quote == "\"" || quote == "'"
    requires Bare(k)
    ensures StripChar(StripChar(quote + k + quote, '"'), '\'') == k
  {
    if quote == "\"" {
      assert quote + k + quote == ['"'] + k + ['"'];
      StripCharOnce(k, '"');
      StripCharKeeps(k, '\'');
    } else if quote == "'" {
      var m := ['\''] + k + ['\''];
      assert quote + k + quote == m;
      StripCharKeeps(m, '"');
      StripCharOnce(k, '\'');
    } else {
      assert quote + k + quote == k;
      StripCharKeeps(k, '"');
      StripCharKeeps(k, '\'');
    }
  }

  // ---------------------------------------------------------------------------------------
  // GitHub GraphQL analysis

  /** `j.get(outer, {}).get(inner, default)`; `None` when either receiver is not a dict. */
  function Get2(j: Json, outer: string, inner: string, default: Json): (r: Option<Json>)
    ensures r.Some? ==> j.JObj?
    ensures j.JObj? && !HasKey(j, outer) ==> r == Some(default)
  {
    var middle :- Get(j, outer, JObj([]));
    Get(middle, inner, default)
  }

  /**
   * The user in a parsed response: a response with an "errors" member and a response without a
   * truthy `data.user` give none. A response that is not a dict gives none as well: either the
   * `in` test or the following `.get` raises, or the test succeeds and the function returns.
   */
  function UserOf(data: Json): (r: Option<Json>)
    ensures r.Some? ==> data.JObj? && !HasKey(data, "errors") && Truthy(r.value)
    ensures r.Some? ==> Get2(data, "data", "user", JNull) == r
  {
    if !data.JObj? || HasKey(data, "errors") then None
    else
      var user :- Get2(data, "data", "user", JNull);
      if Truthy(user) then Some(user) else None
  }

  /** The repositories iterated: `user.get("repositories", {}).get("nodes", [])`. */
  function ReposOf(user: Json): (r: Option<seq<Json>>)
    ensures r.Some? ==> user.JObj?
  {
    var nodes :- Get2(user, "repositories", "nodes", JArr([]));
    Analyzer.Iterate(nodes)
  }

  /**
   * A list comprehension with a condition: the elements `drop` rejects, in order; `None` as
   * soon as testing one raises (`drop` gives `None` for it).
   */
  function Keep(xs: seq<Json>, drop: Json -> Option<bool>): (r: Option<seq<Json>>)
    ensures r.Some? <==> forall k | 0 <= k < |xs| :: drop(xs[k]).Some?
    ensures r.Some? ==> |r.value| <= |xs|
    decreases |xs|
  {
    if xs == [] then Some([])
    else
      var init := xs[..|xs| - 1];
      var last := xs[|xs| - 1];
      assert forall k | 0 <= k < |init| :: init[k] == xs[k];
      var kept :- Keep(init, drop);
      var dropped :- drop(last);
      Some(if dropped then kept else kept + [last])
  }

  /** The filtered list holds exactly the elements of `xs` that `drop` rejects. */
  lemma {:induction false} KeepMembers(xs: seq<Json>, drop: Json -> Option<bool>)
    requires Keep(xs, drop).Some?
    ensures forall x :: x in Keep(xs, drop).value <==> x in xs && drop(x) == Some(false)
    decreases |xs|
  {
    if xs != [] {
      var init := xs[..|xs| - 1];
      assert forall k | 0 <= k < |init| :: init[k] == xs[k];
      assert forall x :: x in xs <==> x in init || x == xs[|xs| - 1];
      KeepMembers(init, drop);
    }
  }

  /** `sum(term(x) for x in xs)`, added left to right; `None` as soon as a term raises. */
  function Sum(xs: seq<Json>, term: Json -> Option<int>): (r: Option<int>)
    decreases |xs|
  {
    if xs == [] then Some(0)
    else
      var total :- Sum(xs[..|xs| - 1], term);
      var t :- term(xs[|xs| - 1]);
      Some(total + t)
  }

  /**
   * The sum of the terms of the elements `drop` rejects, counted from the front without
   * building the filtered list: `None` when a test or a counted term raises.
   */
  function SumKept(xs: seq<Json>, drop: Json -> Option<bool>, term: Json -> Option<int>): (r: Option<int>)
    decreases |xs|
  {
    if xs == [] then Some(0)
    else
      var dropped :- drop(xs[0]);
      var rest :- SumKept(xs[1..], drop, term);
      if dropped then Some(rest)
      else
        var t :- term(xs[0]);
        Some(t + rest)
  }

  /** Summing splits over a concatenation. */
  lemma {:induction false} SumAppend(a: seq<Json>, b: seq<Json>, term: Json -> Option<int>)
    ensures Sum(a + b, term) ==
      if Sum(a, term).Some? && Sum(b, term).Some? then Some(Sum(a, term).value + Sum(b, term).value)
      else None
    decreases |b|
  {
    if b == [] {
      assert a + b == a;
    } else {
      var init := b[..|b| - 1];
      assert (a + b)[..|a + b| - 1] == a + init;
      assert (a + b)[|a + b| - 1] == b[|b| - 1];
      SumAppend(a, init, term);
    }
  }

  /** Filtering a list with a first element is testing that element and filtering the rest. */
  lemma {:induction false} KeepCons(first: Json, rest: seq<Json>, drop: Json -> Option<bool>)
    requires drop(first).Some? && Keep(rest, drop).Some?
    ensures Keep([first] + rest, drop) ==
      Some((if drop(first).value then [] else [first]) + Keep(rest, drop).value)
    decreases |rest|
  {
    var s := [first] + rest;
    var head: seq<Json> := if drop(first).value then [] else [first];
    if rest == [] {
      assert s == [first];
      assert s[..0] == [];
      assert Keep(s[..0], drop) == Some([]);
      assert [] + [first] == [first];
      assert Keep(s, drop) == Some(head);
      assert Keep(rest, drop) == Some([]);
      assert head + [] == head;
    } else {
      var init := rest[..|rest| - 1];
      var last := rest[|rest| - 1];
      assert forall k | 0 <= k < |init| :: init[k] == rest[k];
      var kept := Keep(init, drop).value;
      assert Keep(rest, drop) == Some(if drop(last).value then kept else kept + [last]);
      assert s[..|s| - 1] == [first] + init;
      assert s[|s| - 1] == last;
      KeepCons(first, init, drop);
      assert Keep(s, drop) == Some(if drop(last).value then head + kept else (head + kept) + [last]);
      assert (head + kept) + [last] == head + (kept + [last]);
    }
  }

  /** The sum of one term is that term. */
  lemma SumSingle(x: Json, term: Json -> Option<int>)
    ensures Sum([x], term) == if term(x).Some? then Some(term(x).value) else None
  {
    assert [x][..0] == [];
  }

  /** Filtering and then summing is summing over the kept elements, failure included. */
  lemma {:induction false} SumOfKept(xs: seq<Json>, drop: Json -> Option<bool>, term: Json -> Option<int>)
    requires Keep(xs, drop).Some?
    ensures Sum(Keep(xs, drop).value, term) == SumKept(xs, drop, term)
    decreases |xs|
  {
    if xs != [] {
      var x := xs[0];
      var rest := xs[1..];
      assert xs == [x] + rest;
      assert forall k | 0 <= k < |rest| :: rest[k] == xs[k + 1];
      SumOfKept(rest, drop, term);
      if drop(x).value {
        SumKeptDropped(x, rest, drop, term);
      } else {
        SumKeptKept(x, rest, drop, term);
      }
    }
  }

  /** A dropped first element adds nothing to either sum. */
  lemma SumKeptDropped(x: Json, rest: seq<Json>, drop: Json -> Option<bool>, term: Json -> Option<int>)
    requires drop(x) == Some(true) && Keep(rest, drop).Some?
    requires Sum(Keep(rest, drop).value, term) == SumKept(rest, drop, term)
    ensures Keep([x] + rest, drop).Some?
    ensures Sum(Keep([x] + rest, drop).value, term) == SumKept([x] + rest, drop, term)
  {
    KeepCons(x, rest, drop);
    assert [] + Keep(rest, drop).value == Keep(rest, drop).value;
    assert ([x] + rest)[0] == x && ([x] + rest)[1..] == rest;
  }

  /** A kept first element adds its term to both sums, or makes both raise. */
  lemma SumKeptKept(x: Json, rest: seq<Json>, drop: Json -> Option<bool>, term: Json -> Option<int>)
    requires drop(x) == Some(false) && Keep(rest, drop).Some?
    requires Sum(Keep(rest, drop).value, term) == SumKept(rest, drop, term)
    ensures Keep([x] + rest, drop).Some?
    ensures Sum(Keep([x] + rest, drop).value, term) == SumKept([x] + rest, drop, term)
  {
    var kept := Keep(rest, drop).value;
    KeepCons(x, rest, drop);
    SumAppend([x], kept, term);
    SumSingle(x, term);
    assert ([x] + rest)[0] == x && ([x] + rest)[1..] == rest;
  }

  /** `r.get("isFork", False)` is truthy; `None` when `r` is not a dict. */
  function ForkTest(repo: Json): (r: Option<bool>)
    ensures r.Some? <==> repo.JObj?
  {
    if repo.JObj? then Some(Truthy(Get(repo, "isFork", JBool(false)).value)) else None
  }

  /** `own_repos`: the repositories that are not forks, in order. */
  function OwnRepos(repos: seq<Json>): (r: Option<seq<Json>>)
    ensures r.Some? <==> forall k | 0 <= k < |repos| :: repos[k].JObj?
  {
    Keep(repos, ForkTest)
  }

  /** `r.get("stargazerCount", 0)` as a term of an integer sum; `None` when adding it raises. */
  function StarCount(repo: Json): (r: Option<int>)
    ensures r.Some? ==> repo.JObj?
  {
    var stars :- Get(repo, "stargazerCount", JNum(0));
    match stars
    case JNum(n) => Some(n)
    case JBool(b) => Some(if b then 1 else 0)
    case _ => None
  }

  /** `total_stars`. */
  function TotalStars(own: seq<Json>): Option<int> {
    Sum(own, StarCount)
  }

  // ---------------------------------------------------------------------------------------
  // Top languages

  /**
   * What one own repository adds to the language tally: `Some(Some(name))` for a truthy
   * language name, `Some(None)` when the repository names no language, `None` when the code
   * raises (a truthy `primaryLanguage` that is not a dict, or a name that cannot be a dict key).
   */
  function LanguageOf(repo: Json): (r: Option<Option<Json>>)
    ensures r.Some? ==> repo.JObj?
    ensures r.Some? && r.value.Some? ==> Truthy(r.value.value) && !r.value.value.JArr? && !r.value.value.JObj?
  {
    var lang :- Get(repo, "primaryLanguage", JObj([]));
    if !Truthy(lang) then Some(None)
    else
      var name :- Get(lang, "name", JNull);
      if !Truthy(name) then Some(None)
      else if name.JArr? || name.JObj? then None
      else Some(Some(name))
  }

  /** `lang_count` as an insertion-ordered list of (language, count) pairs. */
  type Tally = seq<(Json, nat)>

  /** The languages of a tally, in insertion order. */
  function Keys(tally: Tally): (r: seq<Json>)
    ensures |r| == |tally|
    ensures forall i | 0 <= i < |tally| :: r[i] == tally[i].0
    decreases |tally|
  {
    if tally == [] then []
    else
      var r := [tally[0].0] + Keys(tally[1..]);
      assert forall i | 1 <= i < |tally| :: r[i] == Keys(tally[1..])[i - 1];
      r
  }

  predicate Distinct(s: seq<Json>) {
    forall i, j | 0 <= i < j < |s| :: s[i] != s[j]
  }

  /** `lang_count.get(name, 0)`. */
  function CountOf(tally: Tally, name: Json): (r: nat)
    decreases |tally|
  {
    if tally == [] then 0
    else if tally[0].0 == name then tally[0].1
    else CountOf(tally[1..], name)
  }

  /** `lang_count[name] = lang_count.get(name, 0) + 1`. */
  function Bump(tally: Tally, name: Json): (r: Tally)
    ensures |r| >= |tally|
    decreases |tally|
  {
    if tally == [] then [(name, 1)]
    else if tally[0].0 == name then [(name, tally[0].1 + 1)] + tally[1..]
    else [tally[0]] + Bump(tally[1..], name)
  }

  /** Bumping raises the count of `name` by one and leaves every other count alone. */
  lemma {:induction false} BumpCounts(tally: Tally, name: Json)
    ensures CountOf(Bump(tally, name), name) == CountOf(tally, name) + 1
    ensures forall other | other != name :: CountOf(Bump(tally, name), other) == CountOf(tally, other)
    decreases |tally|
  {
    if tally != [] {
      var r := Bump(tally, name);
      if tally[0].0 == name {
        assert r[1..] == tally[1..];
      } else {
        assert r[1..] == Bump(tally[1..], name);
        BumpCounts(tally[1..], name);
      }
    }
  }

  /** A language already counted keeps its place; a new one is appended. */
  lemma {:induction false} BumpKeys(tally: Tally, name: Json)
    ensures Keys(Bump(tally, name)) == if name in Keys(tally) then Keys(tally) else Keys(tally) + [name]
    decreases |tally|
  {
    if tally != [] {
      var r := Bump(tally, name);
      if tally[0].0 == name {
        assert r[1..] == tally[1..];
      } else {
        BumpKeys(tally[1..], name);
        assert r[1..] == Bump(tally[1..], name);
      }
    }
  }

  /** Bumping keeps the languages distinct and every count positive. */
  lemma BumpKeeps(tally: Tally, name: Json)
    requires Distinct(Keys(tally)) && forall i | 0 <= i < |tally| :: tally[i].1 >= 1
    ensures Distinct(Keys(Bump(tally, name)))
    ensures forall i | 0 <= i < |Bump(tally, name)| :: Bump(tally, name)[i].1 >= 1
  {
    BumpKeys(tally, name);
    BumpPositive(tally, name);
  }

  lemma {:induction false} BumpPositive(tally: Tally, name: Json)
    requires forall i | 0 <= i < |tally| :: tally[i].1 >= 1
    ensures forall i | 0 <= i < |Bump(tally, name)| :: Bump(tally, name)[i].1 >= 1
    decreases |tally|
  {
    if tally != [] && tally[0].0 != name {
      BumpPositive(tally[1..], name);
    }
  }

  /** The tally of the languages of `own`, in order; `None` when the loop raises. */
  function Languages(own: seq<Json>): (r: Option<Tally>)
    decreases |own|
  {
    if own == [] then Some([])
    else
      var tally :- Languages(own[..|own| - 1]);
      var lang :- LanguageOf(own[|own| - 1]);
      Some(if lang.Some? then Bump(tally, lang.value) else tally)
  }

  /** How many repositories of `own` name the language `name`. */
  function Occurrences(own: seq<Json>, name: Json): (r: nat)
    ensures r <= |own|
    decreases |own|
  {
    if own == [] then 0
    else Occurrences(own[..|own| - 1], name) + (if LanguageOf(own[|own| - 1]) == Some(Some(name)) then 1 else 0)
  }

  /**
   * The tally counts every language exactly as often as the repositories name it, lists each
   * language once, and holds no zero count.
   */
  lemma {:induction false} LanguagesCount(own: seq<Json>)
    requires Languages(own).Some?
    ensures Distinct(Keys(Languages(own).value))
    ensures forall i | 0 <= i < |Languages(own).value| :: Languages(own).value[i].1 >= 1
    ensures forall name :: CountOf(Languages(own).value, name) == Occurrences(own, name)
    decreases |own|
  {
    if own != [] {
      var init := own[..|own| - 1];
      LanguagesCount(init);
      var lang := LanguageOf(own[|own| - 1]).value;
      if lang.Some? {
        BumpCounts(Languages(init).value, lang.value);
        BumpKeeps(Languages(init).value, lang.value);
      }
    }
  }

  /** In a tally whose languages are distinct, the pair at `i` holds the count of its language. */
  lemma {:induction false} CountOfAt(tally: Tally, i: nat)
    requires Distinct(Keys(tally)) && i < |tally|
    ensures CountOf(tally, tally[i].0) == tally[i].1
    decreases i
  {
    if i > 0 {
      assert forall j | 0 <= j < |tally| - 1 :: Keys(tally[1..])[j] == Keys(tally)[j + 1];
      CountOfAt(tally[1..], i - 1);
    }
  }

  /** The loop over the own repositories that fills `lang_count`. */
  method CountLanguages(own: seq<Json>) returns (tally: Option<Tally>)
    ensures tally == Languages(own)
  {
    var counts: Tally := [];
    var i := 0;
    while i < |own|
      invariant i <= |own|
      invariant Languages(own[..i]) == Some(counts)
    {
      assert own[..i + 1][..i] == own[..i];
      match LanguageOf(own[i]) {
        case None =>
          LanguagesNoneSticks(own, i + 1);
          return None;
        case Some(lang) =>
          if lang.Some? {
            counts := Bump(counts, lang.value);
          }
      }
      i := i + 1;
    }
    assert own[..|own|] == own;
    return Some(counts);
  }

  /** Once the loop has raised, the later repositories do not matter. */
  lemma {:induction false} LanguagesNoneSticks(own: seq<Json>, n: nat)
    requires n <= |own| && Languages(own[..n]).None?
    ensures Languages(own).None?
    decreases |own| - n
  {
    if n < |own| {
      assert own[..n + 1][..n] == own[..n];
      LanguagesNoneSticks(own, n + 1);
    } else {
      assert own[..n] == own;
    }
  }

  /** The sort key of `top_languages`: the count. */
  function Count(e: (Json, nat)): int {
    e.1
  }

  /** `sorted(lang_count.items(), key=lambda x: -x[1])[:8]`. */
  function TopLanguages(tally: Tally): (r: Tally)
    ensures |r| == if |tally| < 8 then |tally| else 8
  {
    Take(Sorting.SortDesc(tally, Count), 8)
  }

  /**
   * The top languages are the most frequent ones: they come from the tally, in descending
   * count order, no language left out has a higher count than one kept, and languages with the
   * same count keep the order in which the tally first met them.
   */
  lemma TopLanguagesRanked(tally: Tally)
    ensures Sorting.SortedDesc(TopLanguages(tally), Count)
    ensures forall e | e in TopLanguages(tally) :: e in tally
    ensures forall e, f | e in tally && e !in TopLanguages(tally) && f in TopLanguages(tally) :: e.1 <= f.1
    ensures forall k :: IsPrefix(Sorting.WithKey(TopLanguages(tally), Count, k), Sorting.WithKey(tally, Count, k))
  {
    var r := TopLanguages(tally);
    Sorting.SortDescSorted(tally, Count);
    assert r == Sorting.SortDesc(tally, Count)[..|r|];
    TopFromTally(tally, r);
    TopDominates(tally, r);
    TopStable(tally, r);
  }

  /** A prefix of the sorted tally holds only languages of the tally. */
  lemma TopFromTally(tally: Tally, r: Tally)
    requires |r| <= |tally| && r == Sorting.SortDesc(tally, Count)[..|r|]
    requires multiset(Sorting.SortDesc(tally, Count)) == multiset(tally)
    ensures forall e | e in r :: e in tally
  {
    var sorted := Sorting.SortDesc(tally, Count);
    forall e | e in r ensures e in tally {
      assert e in multiset(sorted);
    }
  }

  /** No language outside a prefix of the sorted tally counts more than one inside it. */
  lemma TopDominates(tally: Tally, r: Tally)
    requires |r| <= |tally| && r == Sorting.SortDesc(tally, Count)[..|r|]
    requires multiset(Sorting.SortDesc(tally, Count)) == multiset(tally)
    requires Sorting.SortedDesc(Sorting.SortDesc(tally, Count), Count)
    ensures forall e, f | e in tally && e !in r && f in r :: e.1 <= f.1
  {
    var sorted := Sorting.SortDesc(tally, Count);
    forall e, f | e in tally && e !in r && f in r ensures e.1 <= f.1 {
      assert e in multiset(sorted);
      PrefixDominates(sorted, r, e, f);
    }
  }

  /** In a sequence sorted by count, an element past a prefix counts no more than one in it. */
  lemma PrefixDominates(sorted: Tally, r: Tally, e: (Json, nat), f: (Json, nat))
    requires Sorting.SortedDesc(sorted, Count)
    requires |r| <= |sorted| && r == sorted[..|r|]
    requires e in sorted && e !in r && f in r
    ensures e.1 <= f.1
  {
    var j :| 0 <= j < |sorted| && sorted[j] == e;
    var i :| 0 <= i < |r| && r[i] == f;
    assert sorted[i] == f;
    assert Count(sorted[i]) >= Count(sorted[j]);
  }

  /** Languages with equal counts keep their tally order in a prefix of the sorted tally. */
  lemma TopStable(tally: Tally, r: Tally)
    requires |r| <= |tally| && r == Sorting.SortDesc(tally, Count)[..|r|]
    ensures forall k :: IsPrefix(Sorting.WithKey(r, Count, k), Sorting.WithKey(tally, Count, k))
  {
    var sorted := Sorting.SortDesc(tally, Count);
    forall k ensures IsPrefix(Sorting.WithKey(r, Count, k), Sorting.WithKey(tally, Count, k)) {
      WithKeyPrefix(sorted, |r|, Count, k);
      Sorting.SortDescStable(tally, Count, k);
    }
  }

  ghost predicate IsPrefix<T>(a: seq<T>, b: seq<T>) {
    |a| <= |b| && b[..|a|] == a
  }

  /** The elements of a prefix with a given key are a prefix of the elements with that key. */
  lemma {:induction false} WithKeyPrefix<T>(s: seq<T>, n: nat, key: T -> int, k: int)
    requires n <= |s|
    ensures IsPrefix(Sorting.WithKey(s[..n], key, k), Sorting.WithKey(s, key, k))
    decreases n
  {
    if n > 0 {
      assert s[..n][0] == s[0];
      assert s[..n][1..] == s[1..][..n - 1];
      WithKeyPrefix(s[1..], n - 1, key, k);
    }
  }

  // ---------------------------------------------------------------------------------------
  // Pinned and top repositories

  /**
   * A list comprehension (or an append loop) over `xs` building one value per element with
   * `f`: `None` as soon as building one raises.
   */
  function MapAll<T>(xs: seq<Json>, f: Json -> Option<T>): (r: Option<seq<T>>)
    ensures r.Some? <==> forall k | 0 <= k < |xs| :: f(xs[k]).Some?
    ensures r.Some? ==> |r.value| == |xs| && forall k | 0 <= k < |xs| :: f(xs[k]) == Some(r.value[k])
    decreases |xs|
  {
    if xs == [] then Some([])
    else
      var init := xs[..|xs| - 1];
      assert forall k | 0 <= k < |init| :: init[k] == xs[k];
      var done :- MapAll(init, f);
      var last :- f(xs[|xs| - 1]);
      Some(done + [last])
  }

  /**
   * `(x.get("primaryLanguage") or {}).get("name", "")`; `None` when a truthy language is not a
   * dict.
   */
  function LanguageName(x: Json): (r: Option<Json>)
    requires x.JObj?
    ensures !Truthy(Get(x, "primaryLanguage", JNull).value) ==> r == Some(JStr(""))
  {
    var lang := Get(x, "primaryLanguage", JNull).value;
    Get(if Truthy(lang) then lang else JObj([]), "name", JStr(""))
  }

  /** One element of `pinned_repos`; `None` when the node is not a dict or its language raises. */
  function PinnedEntry(p: Json): (r: Option<Json>)
    ensures r.Some? ==> p.JObj? && r.value.JObj?
  {
    if !p.JObj? then None
    else
      var language :- LanguageName(p);
      Some(JObj([
        ("name", Get(p, "name", JStr("")).value),
        ("description", Get(p, "description", JStr("")).value),
        ("stars", Get(p, "stargazerCount", JNum(0)).value),
        ("language", language),
        ("url", Get(p, "url", JStr("")).value)]))
  }

  /** The pinned nodes iterated: `user.get("pinnedItems", {}).get("nodes", [])`. */
  function PinnedOf(user: Json): (r: Option<seq<Json>>)
    ensures r.Some? ==> user.JObj?
  {
    var nodes :- Get2(user, "pinnedItems", "nodes", JArr([]));
    Analyzer.Iterate(nodes)
  }

  /** The loop that appends one entry per pinned node. */
  method PinnedRepos(nodes: seq<Json>) returns (pinned: Option<seq<Json>>)
    ensures pinned == MapAll(nodes, PinnedEntry)
  {
    var entries: seq<Json> := [];
    var i := 0;
    while i < |nodes|
      invariant i <= |nodes|
      invariant MapAll(nodes[..i], PinnedEntry) == Some(entries)
    {
      assert nodes[..i + 1][..i] == nodes[..i];
      var entry := PinnedEntry(nodes[i]);
      if entry.None? {
        assert !(forall k | 0 <= k < |nodes| :: PinnedEntry(nodes[k]).Some?);
        return None;
      }
      entries := entries + [entry.value];
      i := i + 1;
    }
    assert nodes[..|nodes|] == nodes;
    return Some(entries);
  }

  /**
   * `(r.get("description") or "")[:100]`: a falsy description becomes "", a string or a list is
   * cut to its first 100 elements, and anything else raises.
   */
  function Description(repo: Json): (r: Option<Json>)
    requires repo.JObj?
    ensures r.Some? ==> (r.value.JStr? && |r.value.s| <= 100) || (r.value.JArr? && |r.value.items| <= 100)
    ensures var d := Get(repo, "description", JNull).value;
      && (!Truthy(d) ==> r == Some(JStr("")))
      && (Truthy(d) && d.JStr? ==>
            r.Some? && r.value.JStr? && IsPrefix(r.value.s, d.s) && |r.value.s| == Min(|d.s|, 100))
      && (Truthy(d) && d.JArr? ==>
            r.Some? && r.value.JArr? && IsPrefix(r.value.items, d.items) && |r.value.items| == Min(|d.items|, 100))
      && (Truthy(d) && !d.JStr? && !d.JArr? ==> r.None?)
  {
    var d := Get(repo, "description", JNull).value;
    if !Truthy(d) then Some(JStr(""))
    else
      match d
      case JStr(text) => Some(JStr(Take(text, 100)))
      case JArr(items) => Some(JArr(Take(items, 100)))
      case _ => None
  }

  function Min(a: int, b: int): int {
    if a < b then a else b
  }

  /** One element of `top_repos`. */
  function TopRepo(repo: Json): (r: Option<Json>)
    ensures r.Some? ==> repo.JObj?
  {
    if !repo.JObj? then None
    else
      var description :- Description(repo);
      var language :- LanguageName(repo);
      Some(RepoEntry(Get(repo, "name", JStr("")).value, description, Get(repo, "stargazerCount", JNum(0)).value,
        Get(repo, "forkCount", JNum(0)).value, language))
  }

  function RepoEntry(name: Json, description: Json, stars: Json, forks: Json, language: Json): Json {
    JObj([("name", name), ("description", description), ("stars", stars), ("forks", forks), ("language", language)])
  }

  lemma RepoEntryDescription(name: Json, description: Json, stars: Json, forks: Json, language: Json)
    ensures Get(RepoEntry(name, description, stars, forks, language), "description", JNull) == Some(description)
  {
    GetAt(RepoEntry(name, description, stars, forks, language), 1, JNull);
  }

  /**
   * `top_repos` lists the first five own repositories (all of them when there are fewer), each
   * with a description of at most 100 characters.
   */
  lemma TopReposFacts(own: seq<Json>)
    requires MapAll(Take(own, 5), TopRepo).Some?
    ensures |MapAll(Take(own, 5), TopRepo).value| == if |own| < 5 then |own| else 5
    ensures forall k | 0 <= k < |MapAll(Take(own, 5), TopRepo).value| ::
      var d := Get(MapAll(Take(own, 5), TopRepo).value[k], "description", JNull);
      d.Some? && ((d.value.JStr? && |d.value.s| <= 100) || (d.value.JArr? && |d.value.items| <= 100))
  {
    var tops := MapAll(Take(own, 5), TopRepo).value;
    forall k | 0 <= k < |tops|
      ensures var d := Get(tops[k], "description", JNull);
        d.Some? && ((d.value.JStr? && |d.value.s| <= 100) || (d.value.JArr? && |d.value.items| <= 100))
    {
      var repo := Take(own, 5)[k];
      assert TopRepo(repo) == Some(tops[k]);
      RepoEntryDescription(Get(repo, "name", JStr("")).value, Description(repo).value,
        Get(repo, "stargazerCount", JNum(0)).value, Get(repo, "forkCount", JNum(0)).value, LanguageName(repo).value);
    }
  }

  // ---------------------------------------------------------------------------------------
  // The summary

  /** The `contributions` dict; `None` when the collection or its calendar is not a dict. */
  function Contributions(user: Json): (r: Option<Json>)
    requires user.JObj?
  {
    var contribs := Get(user, "contributionsCollection", JObj([])).value;
    var total :- Get2(contribs, "contributionCalendar", "totalContributions", JNum(0));
    Some(JObj([
      ("total", total),
      ("commits", Get(contribs, "totalCommitContributions", JNum(0)).value),
      ("pull_requests", Get(contribs, "totalPullRequestContributions", JNum(0)).value),
      ("issues", Get(contribs, "totalIssueContributions", JNum(0)).value),
      ("repos_created", Get(contribs, "totalRepositoryContributions", JNum(0)).value)]))
  }

  /** An entry of `top_languages`. */
  function LanguageEntry(e: (Json, nat)): Json {
    JObj([("language", e.0), ("count", JNum(e.1))])
  }

  function LanguageEntries(top: Tally): (r: seq<Json>)
    ensures |r| == |top| && forall i | 0 <= i < |top| :: r[i] == LanguageEntry(top[i])
  {
    seq(|top|, i requires 0 <= i < |top| => LanguageEntry(top[i]))
  }

  /** The user's own fields, each read with `user.get(key, "")`. */
  datatype Identity = Identity(name: Json, bio: Json, company: Json, location: Json, createdAt: Json)

  function IdentityOf(user: Json): Identity
    requires user.JObj?
  {
    Identity(Get(user, "name", JStr("")).value, Get(user, "bio", JStr("")).value,
      Get(user, "company", JStr("")).value, Get(user, "location", JStr("")).value,
      Get(user, "createdAt", JStr("")).value)
  }

  /** The counts read with a nested `.get(..., {}).get("totalCount", 0)`. */
  datatype Counts = Counts(followers: Json, following: Json, totalRepos: Json)

  /** The three nested counts; `None` when a receiver is not a dict. */
  function CountsOf(user: Json): (r: Option<Counts>) {
    var followers :- Get2(user, "followers", "totalCount", JNum(0));
    var following :- Get2(user, "following", "totalCount", JNum(0));
    var totalRepos :- Get2(user, "repositories", "totalCount", JNum(0));
    Some(Counts(followers, following, totalRepos))
  }

  /** What the summary derives from the repository list. */
  datatype RepoStats = RepoStats(own: seq<Json>, stars: int, top: Tally, tops: seq<Json>)

  /**
   * `own_repos`, `total_stars`, `top_languages` and `top_repos`; `None` when computing one of
   * them raises.
   */
  function RepoStatsOf(repos: seq<Json>): (r: Option<RepoStats>) {
    var own :- OwnRepos(repos);
    var stars :- TotalStars(own);
    var tally :- Languages(own);
    var tops :- MapAll(Take(own, 5), TopRepo);
    Some(RepoStats(own, stars, TopLanguages(tally), tops))
  }

  /**
   * The statistics of a repository list: the own repositories are exactly those that are not
   * forks, the star total is their star sum, at most eight top languages each carry the number
   * of own repositories naming them and none left out is more frequent, and the top
   * repositories are the first five own ones.
   */
  lemma RepoStatsFacts(repos: seq<Json>)
    requires RepoStatsOf(repos).Some?
    ensures var st := RepoStatsOf(repos).value;
      && (forall x :: x in st.own <==> x in repos && ForkTest(x) == Some(false))
      && Some(st.stars) == SumKept(repos, ForkTest, StarCount)
      && |st.top| <= 8
      && (forall e | e in st.top :: e.1 == Occurrences(st.own, e.0) && e.1 >= 1)
      && (forall name :: Occurrences(st.own, name) >= 1 && (name, Occurrences(st.own, name)) !in st.top ==>
            forall e | e in st.top :: Occurrences(st.own, name) <= e.1)
      && |st.tops| == Min(|st.own|, 5)
      && forall k | 0 <= k < |st.tops| :: TopRepo(st.own[k]) == Some(st.tops[k])
  {
    var own := OwnRepos(repos).value;
    KeepMembers(repos, ForkTest);
    SumOfKept(repos, ForkTest, StarCount);
    TopLanguagesCounted(own);
    assert Take(own, 5) == own[..Min(|own|, 5)];
  }

  /**
   * The top languages of some repositories carry their number of occurrences, and no language
   * left out occurs more often than one kept.
   */
  lemma TopLanguagesCounted(own: seq<Json>)
    requires Languages(own).Some?
    ensures var top := TopLanguages(Languages(own).value);
      && (forall e | e in top :: e.1 == Occurrences(own, e.0) && e.1 >= 1)
      && (forall name :: Occurrences(own, name) >= 1 && (name, Occurrences(own, name)) !in top ==>
            forall e | e in top :: Occurrences(own, name) <= e.1)
  {
    var tally := Languages(own).value;
    LanguagesCount(own);
    TopLanguagesRanked(tally);
    forall e | e in TopLanguages(tally) ensures e.1 == Occurrences(own, e.0) && e.1 >= 1 {
      var i :| 0 <= i < |tally| && tally[i] == e;
      CountOfAt(tally, i);
    }
    forall name | Occurrences(own, name) >= 1 && (name, Occurrences(own, name)) !in TopLanguages(tally)
      ensures forall e | e in TopLanguages(tally) :: Occurrences(own, name) <= e.1
    {
      TallyHas(tally, name);
    }
  }

  /** A language with a positive count in a tally of distinct languages has its pair in it. */
  lemma {:induction false} TallyHas(tally: Tally, name: Json)
    requires CountOf(tally, name) >= 1
    ensures (name, CountOf(tally, name)) in tally
    decreases |tally|
  {
    if tally[0].0 != name {
      TallyHas(tally[1..], name);
    }
  }

  /** The result dict, from the values computed before it. */
  function SummaryObject(username: Json, id: Identity, counts: Counts, stats: RepoStats,
                         pinned: seq<Json>, contributions: Json): Json
  {
    JObj([
      ("username", username),
      ("name", id.name),
      ("bio", id.bio),
      ("company", id.company),
      ("location", id.location),
      ("created_at", id.createdAt),
      ("followers", counts.followers),
      ("following", counts.following),
      ("total_repos", counts.totalRepos),
      ("own_repos", JNum(|stats.own|)),
      ("total_stars", JNum(stats.stars)),
      ("top_languages", JArr(LanguageEntries(stats.top))),
      ("pinned_repos", JArr(pinned)),
      ("contributions", contributions),
      ("top_repos", JArr(stats.tops))])
  }

  /** Where the summary keeps the statistics it reports. */
  lemma SummaryObjectFacts(username: Json, id: Identity, counts: Counts, stats: RepoStats,
                           pinned: seq<Json>, contributions: Json)
    ensures var r := SummaryObject(username, id, counts, stats, pinned, contributions);
      && Get(r, "username", JNull) == Some(username)
      && Get(r, "own_repos", JNull) == Some(JNum(|stats.own|))
      && Get(r, "total_stars", JNull) == Some(JNum(stats.stars))
      && Get(r, "top_languages", JNull) == Some(JArr(LanguageEntries(stats.top)))
      && Get(r, "top_repos", JNull) == Some(JArr(stats.tops))
  {
    SummaryUsername(username, id, counts, stats, pinned, contributions);
    SummaryOwn(username, id, counts, stats, pinned, contributions);
    SummaryStars(username, id, counts, stats, pinned, contributions);
    SummaryLanguages(username, id, counts, stats, pinned, contributions);
    SummaryTops(username, id, counts, stats, pinned, contributions);
  }

  lemma SummaryUsername(username: Json, id: Identity, counts: Counts, stats: RepoStats, pinned: seq<Json>,
                        contributions: Json)
    ensures Get(SummaryObject(username, id, counts, stats, pinned, contributions), "username", JNull) == Some(username)
  {
    GetAt(SummaryObject(username, id, counts, stats, pinned, contributions), 0, JNull);
  }

  lemma SummaryOwn(username: Json, id: Identity, counts: Counts, stats: RepoStats, pinned: seq<Json>,
                   contributions: Json)
    ensures Get(SummaryObject(username, id, counts, stats, pinned, contributions), "own_repos", JNull) == Some(JNum(|stats.own|))
  {
    GetAt(SummaryObject(username, id, counts, stats, pinned, contributions), 9, JNull);
  }

  lemma SummaryStars(username: Json, id: Identity, counts: Counts, stats: RepoStats, pinned: seq<Json>,
                     contributions: Json)
    ensures Get(SummaryObject(username, id, counts, stats, pinned, contributions), "total_stars", JNull) == Some(JNum(stats.stars))
  {
    GetAt(SummaryObject(username, id, counts, stats, pinned, contributions), 10, JNull);
  }

  lemma SummaryLanguages(username: Json, id: Identity, counts: Counts, stats: RepoStats, pinned: seq<Json>,
                         contributions: Json)
    ensures Get(SummaryObject(username, id, counts, stats, pinned, contributions), "top_languages", JNull) == Some(JArr(LanguageEntries(stats.top)))
  {
    GetAt(SummaryObject(username, id, counts, stats, pinned, contributions), 11, JNull);
  }

  lemma SummaryTops(username: Json, id: Identity, counts: Counts, stats: RepoStats, pinned: seq<Json>,
                    contributions: Json)
    ensures Get(SummaryObject(username, id, counts, stats, pinned, contributions), "top_repos", JNull) == Some(JArr(stats.tops))
  {
    GetAt(SummaryObject(username, id, counts, stats, pinned, contributions), 14, JNull);
  }

  /**
   * `analyze_github`: `None` without a username or a token, when the request fails
   * (`response` is `None`), when the response reports errors or no user, and whenever building
   * the summary raises.
   */
  function GithubSummary(username: Json, token: string, response: Option<Json>): (r: Option<Json>)
    ensures !Truthy(username) || token == [] || response.None? ==> r.None?
    ensures response.Some? && UserOf(response.value).None? ==> r.None?
    ensures r.Some? ==> r.value.JObj?
  {
    if !Truthy(username) || token == [] then None
    else
      var data :- response;
      var user :- UserOf(data);
      SummaryOf(username, user)
  }

  /** The summary of a user found in the response; `None` when building it raises. */
  function SummaryOf(username: Json, user: Json): (r: Option<Json>)
    ensures r.Some? ==> r.value.JObj?
  {
    var repos :- ReposOf(user);
    var stats :- RepoStatsOf(repos);
    var nodes :- PinnedOf(user);
    var pinned :- MapAll(nodes, PinnedEntry);
    var contributions :- Contributions(user);
    var counts :- CountsOf(user);
    Some(SummaryObject(username, IdentityOf(user), counts, stats, pinned, contributions))
  }

  /** `analyze_github` with the two loops of the source run as loops. */
  method AnalyzeGithub(username: Json, token: string, response: Option<Json>) returns (result: Option<Json>)
    ensures result == GithubSummary(username, token, response)
  {
    if !Truthy(username) || token == [] {
      return None;
    }
    var data :- response;
    var user :- UserOf(data);
    result := Summarize(username, user);
  }

  /** The body of the `try` block once the user is found. */
  method Summarize(username: Json, user: Json) returns (result: Option<Json>)
    ensures result == SummaryOf(username, user)
  {
    var repos :- ReposOf(user);
    var stats :- RepoStatistics(repos);
    var nodes :- PinnedOf(user);
    var pinned :- PinnedRepos(nodes);
    var contributions :- Contributions(user);
    var counts :- CountsOf(user);
    return Some(SummaryObject(username, IdentityOf(user), counts, stats, pinned, contributions));
  }

  /** `own_repos`, `total_stars`, the language loop and `top_repos`. */
  method RepoStatistics(repos: seq<Json>) returns (stats: Option<RepoStats>)
    ensures stats == RepoStatsOf(repos)
  {
    var own :- OwnRepos(repos);
    var stars :- TotalStars(own);
    var tally :- CountLanguages(own);
    var tops :- MapAll(Take(own, 5), TopRepo);
    return Some(RepoStats(own, stars, TopLanguages(tally), tops));
  }

  /**
   * A summary is built from the response's user and the statistics of its repository list:
   * it names the user given and reports the own repository count, the star total, the top
   * languages and the top repositories of those statistics.
   */
  lemma GithubSummaryFacts(username: Json, token: string, data: Json)
    requires GithubSummary(username, token, Some(data)).Some?
    ensures UserOf(data).Some? && ReposOf(UserOf(data).value).Some?
    ensures RepoStatsOf(ReposOf(UserOf(data).value).value).Some?
    ensures var st := RepoStatsOf(ReposOf(UserOf(data).value).value).value;
      && var r := GithubSummary(username, token, Some(data)).value;
      && Get(r, "username", JNull) == Some(username)
      && Get(r, "own_repos", JNull) == Some(JNum(|st.own|))
      && Get(r, "total_stars", JNull) == Some(JNum(st.stars))
      && Get(r, "top_languages", JNull) == Some(JArr(LanguageEntries(st.top)))
      && Get(r, "top_repos", JNull) == Some(JArr(st.tops))
  {
    var user := UserOf(data).value;
    var stats := RepoStatsOf(ReposOf(user).value).value;
    var pinned := MapAll(PinnedOf(user).value, PinnedEntry).value;
    var counts := CountsOf(user).value;
    var contributions := Contributions(user).value;
    assert SummaryOf(username, user)
      == Some(SummaryObject(username, IdentityOf(user), counts, stats, pinned, contributions));
    SummaryObjectFacts(username, IdentityOf(user), counts, stats, pinned, contributions);
  }

  // ---------------------------------------------------------------------------------------
  // Evaluation

  const CouldNot: Json := JObj([("rating", JFloat("3.0")), ("reasoning", JStr("Could not fully evaluate"))])
  const PendingFull: Json := JArr([JStr("Pending full evaluation")])
  const Pending: Json := JStr("Pending evaluation")

  /** The evaluation `evaluate_candidate` returns when Gemini gives nothing usable. */
  const FallbackEvaluation: Json := JObj([
    ("overall_rating", JFloat("3.0")),
    ("overall_score", JNum(50)),
    ("metrics", JObj([
      ("technical_depth", CouldNot),
      ("project_quality", CouldNot),
      ("experience_relevance", CouldNot),
      ("github_activity", CouldNot),
      ("skill_match", CouldNot),
      ("overall_fit", CouldNot)])),
    ("strengths", PendingFull),
    ("areas_for_improvement", PendingFull),
    ("recommendation", JObj([
      ("decision", JStr("CONSIDER")),
      ("confidence", JStr("LOW")),
      ("reasoning", JStr("Analysis incomplete \U{2014} could not fully evaluate candidate."))])),
    ("detailed_feedback", JObj([
      ("technical_assessment", Pending),
      ("culture_fit", Pending),
      ("growth_potential", Pending),
      ("salary_alignment", Pending)]))])

  /** The fallback scores 50 and recommends "CONSIDER". */
  lemma FallbackEvaluationVerdict()
    ensures Get(FallbackEvaluation, "overall_score", JNum(0)) == Some(JNum(50))
    ensures Get(FallbackEvaluation, "recommendation", JObj([])).value.JObj?
    ensures Get(Get(FallbackEvaluation, "recommendation", JObj([])).value, "decision", JNull) == Some(JStr("CONSIDER"))
  {
    GetAt(FallbackEvaluation, 1, JNum(0));
    GetAt(FallbackEvaluation, 5, JObj([]));
    GetAt(FallbackEvaluation.members[5].1, 0, JNull);
  }

  lemma FallbackUsable()
    ensures Usable(FallbackEvaluation)
  {
    FallbackEvaluationVerdict();
  }

  /**
   * A parsed evaluation is kept when it is a non-empty dict whose "recommendation" (default
   * `{}`) is a dict, so that reading its decision does not raise.
   */
  predicate Usable(parsed: Json) {
    Truthy(parsed) && parsed.JObj? && Get(parsed, "recommendation", JObj([])).value.JObj?
  }

  /** `_parse_json(result_text)` when Gemini's reply is not empty; `None` otherwise. */
  function Parsed(reply: string, loads: Loads): Option<Json> {
    if reply == [] then None else Recover(DevStages, reply, loads)
  }

  /**
   * `evaluate_candidate` from the reply text on: the parsed value when the reply is not empty
   * and parses to a usable evaluation, the fallback otherwise.
   */
  function Evaluate(reply: string, loads: Loads): (r: Json)
    ensures Usable(r)
    ensures Parsed(reply, loads).Some? && Usable(Parsed(reply, loads).value) ==> r == Parsed(reply, loads).value
    ensures !(Parsed(reply, loads).Some? && Usable(Parsed(reply, loads).value)) ==> r == FallbackEvaluation
  {
    FallbackUsable();
    var parsed := Parsed(reply, loads);
    if parsed.Some? && Usable(parsed.value) then parsed.value else FallbackEvaluation
  }

  /**
   * A candidate Gemini could not evaluate is scored 50 by the developer module, and 50 always
   * leads to "waitlisted", however many positions are filled.
   */
  lemma FallbackWaitlists(othersSelected: nat, positions: int)
    ensures DevRecords.ScoreOf(FallbackEvaluation) == Some(50)
    ensures DevRecords.StatusForScore(50, othersSelected, positions) == "waitlisted"
  {
    GetAt(FallbackEvaluation, 1, JNum(0));
  }

  /** `None` becomes JSON null. */
  function OrNull(v: Option<Json>): Json {
    if v.Some? then v.value else JNull
  }

  /** The dict `analyze_dev_candidate` returns, from its three parts. */
  function DevAnalysis(github: Option<Json>, resume: Option<Json>, evaluation: Json): Json {
    JObj([
      ("github_analysis", OrNull(github)),
      ("resume_analysis", OrNull(resume)),
      ("evaluation", evaluation)])
  }

  /**
   * `analyze_dev_candidate`: the GitHub summary of the candidate's username, the parsed resume
   * (`resume`, produced outside the model) and the evaluation of Gemini's reply.
   */
  function AnalyzeDevCandidate(c: DevRecords.Candidate, token: string, githubResponse: Option<Json>,
                               resume: Option<Json>, reply: string, loads: Loads): Json
  {
    DevAnalysis(GithubSummary(c.githubUsername, token, githubResponse), resume, Evaluate(reply, loads))
  }

  /**
   * The analysis stores null for GitHub exactly when the summary failed (a summary is never
   * null), and the evaluation it is given.
   */
  lemma DevAnalysisFacts(github: Option<Json>, resume: Option<Json>, evaluation: Json)
    requires github.Some? ==> github.value.JObj?
    ensures var r := DevAnalysis(github, resume, evaluation);
      && (Get(r, "github_analysis", JNull) == Some(JNull) <==> github.None?)
      && Get(r, "evaluation", JNull) == Some(evaluation)
  {
    var r := DevAnalysis(github, resume, evaluation);
    GetAt(r, 0, JNull);
    GetAt(r, 2, JNull);
  }

  /**
   * A candidate without a GitHub username, or analysed without a token, gets a null GitHub
   * analysis; and the stored evaluation can always be read: a non-empty dict with a dict
   * recommendation.
   */
  lemma AnalyzeDevCandidateFacts(c: DevRecords.Candidate, token: string, githubResponse: Option<Json>,
                                 resume: Option<Json>, reply: string, loads: Loads)
    ensures var r := AnalyzeDevCandidate(c, token, githubResponse, resume, reply, loads);
      && (!Truthy(c.githubUsername) || token == [] ==> Get(r, "github_analysis", JNull) == Some(JNull))
      && Get(r, "evaluation", JNull).Some? && Usable(Get(r, "evaluation", JNull).value)
  {
    var github := GithubSummary(c.githubUsername, token, githubResponse);
    DevAnalysisFacts(github, resume, Evaluate(reply, loads));
  }
}
