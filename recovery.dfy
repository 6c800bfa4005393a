/**
 * Recovering a JSON value from a language model's reply. Each backend file tries a fixed
 * cascade of stages, handing one piece of the reply to `json.loads` per stage and keeping the
 * first value that parses. `json.loads` itself is the parameter `loads` (`None` for a
 * `JSONDecodeError`); the two regular expressions are modelled exactly.
 */
module Recovery {
  import opened Wrappers
  import opened Text
  import opened Json

  /** What a stage hands to `json.loads`. */
  datatype Stage =
    | Whole         // the reply as it is
    | JsonFence     // what follows "```json", up to the next "```", stripped
    | PlainFence    // what follows the first "```", up to the next "```", stripped
    | GreedyBraces  // the match of `\{.*\}` with DOTALL
    | LazyBrackets  // the match of `\[.*?\]` with DOTALL

  type Loads = string -> Option<Json>

  const Fence: string := "```"
  const JsonMarker: string := "```json"

  /**
   * `text[s:e].strip()` with `s = text.find(marker) + len(marker)` and `e = text.find("```", s)`;
   * `None` when `marker` does not occur. A missing closing fence makes `e` -1, so the slice
   * then stops before the reply's last character.
   */
  function Fenced(text: string, marker: string): (r: Option<string>)
    requires marker != []
    ensures r.Some? <==> Contains(text, marker)
  {
    var f := Find(text, marker);
    if f == -1 then None else Some(FenceBody(text, f + |marker|))
  }

  /** From `s`, the text up to the next "```" (up to the reply's last character when none follows), stripped. */
  function FenceBody(text: string, s: nat): string {
    Strip(PySlice(text, s, FindFrom(text, Fence, s)))
  }

  /**
   * The match of `\{.*\}` (DOTALL): from the first '{' to the last '}', when a '}' follows
   * that '{'. The leftmost start is the first '{': when no '}' follows it, none follows a
   * later one either.
   */
  function GreedyObject(text: string): (r: Option<string>)
    ensures r.Some? <==> exists i, j :: 0 <= i < j < |text| && text[i] == '{' && text[j] == '}'
    ensures r.Some? ==>
      && |r.value| >= 2 && r.value[0] == '{' && r.value[|r.value| - 1] == '}'
      && '{' in text && IndexOf(text, '{') + |r.value| <= |text|
      && r.value == text[IndexOf(text, '{')..IndexOf(text, '{') + |r.value|]
      && '}' !in text[IndexOf(text, '{') + |r.value|..]
  {
    if '{' !in text || '}' !in text then None
    else
      var i := IndexOf(text, '{');
      var j := LastIndexOf(text, '}');
      if j <= i then
        None
      else
        Some(text[i..j + 1])
  }

  /**
   * The match of `\[.*?\]` (DOTALL): from the first '[' to the first ']' after it, when there
   * is one.
   */
  function LazyArray(text: string): (r: Option<string>)
    ensures r.Some? ==>
      && |r.value| >= 2 && r.value[0] == '[' && r.value[|r.value| - 1] == ']'
      && ']' !in r.value[..|r.value| - 1]
      && '[' in text && IndexOf(text, '[') + |r.value| <= |text|
      && r.value == text[IndexOf(text, '[')..IndexOf(text, '[') + |r.value|]
    ensures r.None? <==> '[' !in text || ']' !in text[IndexOf(text, '[')..]
  {
    if '[' !in text then None
    else
      var i := IndexOf(text, '[');
      var rest := text[i..];
      if ']' !in rest then None
      else
        var j := IndexOf(rest, ']');
        Some(rest[..j + 1])
  }

  /** The text a stage hands to `json.loads`, or `None` when the stage does not apply. */
  function Piece(stage: Stage, text: string): Option<string> {
    match stage
    case Whole => Some(text)
    case JsonFence => Fenced(text, JsonMarker)
    case PlainFence => Fenced(text, Fence)
    case GreedyBraces => GreedyObject(text)
    case LazyBrackets => LazyArray(text)
  }

  /** One stage: the value `json.loads` gives its piece, if the stage applies and that parses. */
  function Attempt(stage: Stage, text: string, loads: Loads): Option<Json> {
    match Piece(stage, text)
    case None => None
    case Some(piece) => loads(piece)
  }

  /** The first stage whose attempt succeeds gives the value; `None` when all fail. */
  function Recover(stages: seq<Stage>, text: string, loads: Loads): (r: Option<Json>)
    decreases |stages|
  {
    if stages == [] then None
    else
      match Attempt(stages[0], text, loads)
      case Some(v) => Some(v)
      case None => Recover(stages[1..], text, loads)
  }

  /** `_parse_json_from_text` in the scraper: all five stages. */
  const ScraperStages: seq<Stage> := [Whole, JsonFence, PlainFence, GreedyBraces, LazyBrackets]
  /** `_parse_json_from_text` in the analyzer: no `[...]` stage. */
  const AnalyzerStages: seq<Stage> := [Whole, JsonFence, PlainFence, GreedyBraces]
  /** `_parse_json` in the developer analyzer: no plain-fence stage and no `[...]` stage. */
  const DevStages: seq<Stage> := [Whole, JsonFence, GreedyBraces]

  /**
   * The cascade returns the value of the first stage that succeeds, and `None` exactly when
   * every stage fails.
   */
  lemma {:induction false} RecoverIsFirstSuccess(stages: seq<Stage>, text: string, loads: Loads)
    ensures Recover(stages, text, loads).None? <==>
      forall k :: 0 <= k < |stages| ==> Attempt(stages[k], text, loads).None?
    ensures Recover(stages, text, loads).Some? ==>
      exists k :: 0 <= k < |stages| && Attempt(stages[k], text, loads) == Recover(stages, text, loads)
        && forall m :: 0 <= m < k ==> Attempt(stages[m], text, loads).None?
    decreases |stages|
  {
    if stages != [] {
      RecoverIsFirstSuccess(stages[1..], text, loads);
      var r := Recover(stages, text, loads);
      if Attempt(stages[0], text, loads).None? {
        assert forall k :: 1 <= k < |stages| ==> stages[k] == stages[1..][k - 1];
        if r.Some? {
          var k :| 0 <= k < |stages| - 1 && Attempt(stages[1..][k], text, loads) == r
            && forall m :: 0 <= m < k ==> Attempt(stages[1..][m], text, loads).None?;
          assert Attempt(stages[k + 1], text, loads) == r;
        }
      }
    }
  }

  /** Running two cascades one after the other is running their concatenation. */
  lemma {:induction false} RecoverAppend(a: seq<Stage>, b: seq<Stage>, text: string, loads: Loads)
    ensures Recover(a + b, text, loads)
      == if Recover(a, text, loads).Some? then Recover(a, text, loads) else Recover(b, text, loads)
    decreases |a|
  {
    if a == [] {
      assert a + b == b;
    } else {
      assert (a + b)[1..] == a[1..] + b;
      RecoverAppend(a[1..], b, text, loads);
    }
  }

  /**
   * The three variants agree wherever they overlap: the analyzer's value is the scraper's
   * whenever the analyzer finds one (the scraper then never reaches its `[...]` stage), and the
   * developer analyzer differs from the analyzer only when the plain-fence stage is needed.
   */
  lemma VariantsAgree(text: string, loads: Loads)
    ensures Recover(AnalyzerStages, text, loads).Some? ==>
      Recover(ScraperStages, text, loads) == Recover(AnalyzerStages, text, loads)
    ensures Recover(AnalyzerStages, text, loads).None? ==>
      Recover(ScraperStages, text, loads) == Attempt(LazyBrackets, text, loads)
    ensures Attempt(PlainFence, text, loads).None? ==>
      Recover(DevStages, text, loads) == Recover(AnalyzerStages, text, loads)
  {
    RecoverAppend(AnalyzerStages, [LazyBrackets], text, loads);
    assert ScraperStages == AnalyzerStages + [LazyBrackets];
    assert Recover([LazyBrackets], text, loads) == Attempt(LazyBrackets, text, loads);
    RecoverAppend([Whole, JsonFence], [PlainFence, GreedyBraces], text, loads);
    RecoverAppend([Whole, JsonFence], [GreedyBraces], text, loads);
    assert AnalyzerStages == [Whole, JsonFence] + [PlainFence, GreedyBraces];
    assert DevStages == [Whole, JsonFence] + [GreedyBraces];
  }

  /**
   * A reply whose only backquotes before the block's end are the opening marker at `i` and the
   * closing fence after the `n` characters of the block: the fence stage reads exactly the
   * block, stripped.
   */
  lemma FencedBlock(text: string, marker: string, i: nat, n: nat)
    requires marker != [] && marker[0] == '`'
    requires OccursAt(text, marker, i) && OccursAt(text, Fence, i + |marker| + n)
    requires '`' !in text[0..i] && '`' !in text[i + |marker|..i + |marker| + n]
    ensures Fenced(text, marker) == Some(Strip(text[i + |marker|..i + |marker| + n]))
  {
    var s := i + |marker|;
    FindAfterPlainText(text, marker, 0, i);
    FindAfterPlainText(text, Fence, s, s + n);
    FencedAt(text, marker);
    FenceBodyAt(text, s, s + n);
  }

  /** Searching from `lo` for a backquoted `sub` that occurs at `hi`, past text without backquotes. */
  lemma FindAfterPlainText(text: string, sub: string, lo: nat, hi: nat)
    requires sub != [] && sub[0] == '`' && OccursAt(text, sub, hi)
    requires lo <= hi && '`' !in text[lo..hi]
    ensures FindFrom(text, sub, lo) == hi
  {
    NotInSlice(text, '`', lo, hi);
    FindFromSkips(text, sub, lo, hi);
  }

  lemma NotInSlice(text: string, c: char, lo: nat, hi: nat)
    requires lo <= hi <= |text| && c !in text[lo..hi]
    ensures forall k :: lo <= k < hi ==> text[k] != c
  {
    forall k | lo <= k < hi ensures text[k] != c {
      assert text[lo..hi][k - lo] == text[k];
    }
  }

  /** The fence stage reads the block that starts right after the located marker. */
  lemma FencedAt(text: string, marker: string)
    requires marker != []
    ensures Find(text, marker) != -1 ==>
      Fenced(text, marker) == Some(FenceBody(text, Find(text, marker) + |marker|))
  {
  }

  /** A block closed by a located fence is the slice up to that fence, stripped. */
  lemma FenceBodyAt(text: string, s: nat, e: nat)
    requires s <= e <= |text| && FindFrom(text, Fence, s) == e
    ensures FenceBody(text, s) == Strip(text[s..e])
  {
    assert PySlice(text, s, e) == text[s..e];
  }

  /** The search finds `sub` at `stop` when no character before it, from `start` on, can begin `sub`. */
  lemma {:induction false} FindFromSkips(text: string, sub: string, start: nat, stop: nat)
    requires start <= stop && sub != [] && OccursAt(text, sub, stop)
    requires forall i :: start <= i < stop ==> text[i] != sub[0]
    ensures FindFrom(text, sub, start) == stop
    decreases stop - start
  {
    if start < stop {
      assert text[start..start + |sub|][0] == text[start];
      FindFromSkips(text, sub, start + 1, stop);
    }
  }
}
