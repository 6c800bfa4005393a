/**
 * JSON values as the backend handles them after `json.loads` / before `json.dumps`, with
 * Python's truthiness, `dict.get` and the text `json.dumps(value)` writes with its default
 * settings (separators `", "` and `": "`, `ensure_ascii=True`).
 */
module Json {
  import opened Wrappers
  import opened Text

  /** Every character is printable ASCII (space to tilde). */
  predicate Printable(s: string) {
    forall c :: c in s ==> ' ' <= c <= '~'
  }

  /** The JSON text of a float (`2.5`, `3.0`, `NaN`): kept as text, never computed with. */
  type FloatText = s: string | Printable(s) && s != [] witness "0.0"

  /**
   * A JSON value. Objects keep their members in insertion order, as Python dicts do; the
   * model looks a key up at its first occurrence (`json.loads` never yields two).
   */
  datatype Json =
    | JNull
    | JBool(b: bool)
    | JNum(n: int)
    | JFloat(text: FloatText)
    | JStr(s: string)
    | JArr(items: seq<Json>)
    | JObj(members: seq<(string, Json)>)

  /** Python's `bool(value)`. */
  predicate Truthy(j: Json) {
    match j
    case JNull => false
    case JBool(b) => b
    case JNum(n) => n != 0
    case JFloat(t) => t != "0.0" && t != "-0.0"
    case JStr(s) => s != []
    case JArr(items) => items != []
    case JObj(ms) => ms != []
  }

  /** The value of the first member named `key`, if any. */
  function Lookup(ms: seq<(string, Json)>, key: string): (r: Option<Json>)
    ensures r.Some? <==> exists i :: 0 <= i < |ms| && ms[i].0 == key
    ensures r.Some? ==> exists i :: 0 <= i < |ms| && ms[i] == (key, r.value)
  {
    if ms == [] then None
    else if ms[0].0 == key then Some(ms[0].1)
    else
      var r := Lookup(ms[1..], key);
      assert r.Some? ==> (exists i :: 0 <= i < |ms| - 1 && ms[1..][i] == (key, r.value));
      r
  }

  /** The member at `i` is the one found when no member before it has its key. */
  lemma {:induction false} LookupAt(ms: seq<(string, Json)>, i: nat)
    requires i < |ms| && forall j | 0 <= j < i :: ms[j].0 != ms[i].0
    ensures Lookup(ms, ms[i].0) == Some(ms[i].1)
  {
    if i > 0 {
      assert forall j | 0 <= j < i - 1 :: ms[1..][j] == ms[j + 1];
      LookupAt(ms[1..], i - 1);
    }
  }

  /** `d.get(key, default)` finds the member at `i` when no member before it has its key. */
  lemma GetAt(j: Json, i: nat, default: Json)
    requires j.JObj? && i < |j.members| && forall k | 0 <= k < i :: j.members[k].0 != j.members[i].0
    ensures Get(j, j.members[i].0, default) == Some(j.members[i].1)
  {
    LookupAt(j.members, i);
  }

  /** `key in d` for a dict `d`. */
  predicate HasKey(j: Json, key: string) {
    j.JObj? && Lookup(j.members, key).Some?
  }

  /**
   * `value.get(key, default)`: `None` stands for the `AttributeError` Python raises when
   * `value` is not a dict.
   */
  function Get(j: Json, key: string, default: Json): (r: Option<Json>)
    ensures r.None? <==> !j.JObj?
    ensures j.JObj? && !HasKey(j, key) ==> r == Some(default)
    ensures HasKey(j, key) ==> r == Lookup(j.members, key)
  {
    if j.JObj? then Some(Lookup(j.members, key).GetOr(default)) else None
  }

  /** A dict given by its members. */
  function Obj(ms: seq<(string, Json)>): Json {
    JObj(ms)
  }

  // ---------------------------------------------------------------------------------------
  // json.dumps

  function HexDigit(d: nat): (c: char)
    requires d < 16
    ensures ' ' <= c <= '~'
  {
    if d < 10 then ('0' as int + d) as char else ('a' as int + d - 10) as char
  }

  /** Four lower-case hex digits, as in `\\u00e9`. */
  function Hex4(n: nat): (r: string)
    requires n < 0x10000
    ensures |r| == 4 && Printable(r)
  {
    [HexDigit(n / 0x1000), HexDigit(n / 0x100 % 16), HexDigit(n / 0x10 % 16), HexDigit(n % 16)]
  }

  /**
   * How `json.dumps` writes one character of a string: quote and backslash escaped, the usual
   * short escapes, other characters outside space..tilde as `\\uXXXX` (a surrogate pair
   * above U+FFFF).
   */
  function EscapeChar(c: char): (r: string)
    ensures Printable(r) && |r| >= 1
  {
    if c == '"' then "\\\""
    else if c == '\\' then "\\\\"
    else if c == '\n' then "\\n"
    else if c == '\r' then "\\r"
    else if c == '\t' then "\\t"
    else if c == '\U{8}' then "\\b"
    else if c == '\U{C}' then "\\f"
    else if ' ' <= c <= '~' then [c]
    else if (c as int) < 0x10000 then "\\u" + Hex4(c as int)
    else
      var v := c as int - 0x10000;
      "\\u" + Hex4(0xD800 + v / 0x400) + "\\u" + Hex4(0xDC00 + v % 0x400)
  }

  function EscapeString(s: string): (r: string)
    ensures Printable(r)
  {
    if s == [] then "" else EscapeChar(s[0]) + EscapeString(s[1..])
  }

  /** A JSON string literal. */
  function Quote(s: string): (r: string)
    ensures Printable(r)
  {
    "\"" + EscapeString(s) + "\""
  }

  /** `json.dumps(j)`: always printable ASCII, so never a line break. */
  function Dumps(j: Json): (r: string)
    ensures Printable(r)
    decreases j
  {
    match j
    case JNull => "null"
    case JBool(b) => if b then "true" else "false"
    case JNum(n) => IntToString(n)
    case JFloat(t) => t
    case JStr(s) => Quote(s)
    case JArr(items) => "[" + DumpsItems(items) + "]"
    case JObj(ms) => "{" + DumpsMembers(ms) + "}"
  }

  function DumpsItems(items: seq<Json>): (r: string)
    ensures Printable(r)
    decreases items
  {
    if items == [] then ""
    else if |items| == 1 then Dumps(items[0])
    else Dumps(items[0]) + ", " + DumpsItems(items[1..])
  }

  function DumpsMembers(ms: seq<(string, Json)>): (r: string)
    ensures Printable(r)
    decreases ms
  {
    if ms == [] then ""
    else
      var (key, value) := ms[0];
      assert ms[0] in ms && value < ms[0];
      var first := Quote(key) + ": " + Dumps(value);
      if |ms| == 1 then first else first + ", " + DumpsMembers(ms[1..])
  }

  /** Printable ASCII never holds a line break. */
  lemma PrintableHasNoBreak(s: string)
    requires Printable(s)
    ensures '\n' !in s && '\r' !in s
  {
  }

  // ---------------------------------------------------------------------------------------
  // Helpers for values the source builds with `", ".join(...)` and `str(...)`

  /** The strings of a list, or `None` when an element is not a string (`join` raises). */
  function Strings(items: seq<Json>): (r: Option<seq<string>>)
    ensures r.Some? ==> |r.value| == |items|
    ensures r.Some? <==> forall i :: 0 <= i < |items| ==> items[i].JStr?
    ensures r.Some? ==> forall i :: 0 <= i < |items| ==> items[i] == JStr(r.value[i])
  {
    if items == [] then Some([])
    else if !items[0].JStr? then None
    else
      match Strings(items[1..])
      case None => None
      case Some(rest) => Some([items[0].s] + rest)
  }
}
