/**
 * The records of the developer-recruitment store: candidates and roles, and the counts and
 * scores the handlers compute from them.
 *
 * A role's candidate dict is keyed by submission id, and every stored candidate carries its
 * key as `submission_id`; the model keeps the candidates as a sequence in insertion order,
 * each identified by its `submissionId`.
 */
module DevRecords {
  import opened Wrappers
  import opened Json

  /** A stored candidate. The contact fields hold whatever JSON value the form sent. */
  datatype Candidate = Candidate(
    submissionId: string,
    name: Json,
    phone: Json,
    email: Json,
    resumeUrl: Json,
    githubUsername: Json,
    linkedin: Json,
    currentCtc: Json,
    status: string,
    submittedAt: Json,
    evaluation: Json,
    githubAnalysis: Json,
    resumeAnalysis: Json)

  /** A role and its candidates. */
  datatype Role = Role(
    name: Json,
    jd: string,
    ctc: string,
    positions: int,
    tallyLink: string,
    tallyFormId: Json,
    sheetUrl: string,
    candidates: seq<Candidate>,
    createdAt: string)

  /** A fresh candidate: empty contact fields, "waitlisted", no analyses yet. */
  function NewCandidate(submissionId: string, submittedAt: Json): (c: Candidate)
    ensures c.submissionId == submissionId && c.status == "waitlisted"
    ensures c.evaluation == JNull && c.githubAnalysis == JNull && c.resumeAnalysis == JNull
  {
    Candidate(submissionId, JStr(""), JStr(""), JStr(""), JStr(""), JStr(""), JStr(""), JStr(""),
      "waitlisted", submittedAt, JNull, JNull, JNull)
  }

  predicate IsSelected(c: Candidate) {
    c.status == "selected"
  }

  /** How many candidates have status "selected". */
  function SelectedCount(cs: seq<Candidate>): (r: nat)
    ensures r <= |cs|
    ensures r == 0 <==> forall i :: 0 <= i < |cs| ==> !IsSelected(cs[i])
  {
    if cs == [] then 0
    else (if IsSelected(cs[0]) then 1 else 0) + SelectedCount(cs[1..])
  }

  /** How many candidates other than the one with submission id `id` have status "selected". */
  function SelectedOthers(cs: seq<Candidate>, id: string): nat {
    if cs == [] then 0
    else (if IsSelected(cs[0]) && cs[0].submissionId != id then 1 else 0) + SelectedOthers(cs[1..], id)
  }

  predicate DistinctIds(cs: seq<Candidate>) {
    forall i, j :: 0 <= i < j < |cs| ==> cs[i].submissionId != cs[j].submissionId
  }

  predicate HasId(cs: seq<Candidate>, id: string) {
    exists i :: 0 <= i < |cs| && cs[i].submissionId == id
  }

  /** The position of the candidate with submission id `id` (the dict lookup). */
  function FindCandidate(cs: seq<Candidate>, id: string): (r: Option<nat>)
    ensures r.Some? ==> r.value < |cs| && cs[r.value].submissionId == id
    ensures r.None? <==> !HasId(cs, id)
  {
    if cs == [] then None
    else if cs[0].submissionId == id then Some(0)
    else
      match FindCandidate(cs[1..], id)
      case None => None
      case Some(k) => Some(k + 1)
  }

  /** The slot limit: never more selected candidates than positions. */
  predicate WithinPositions(r: Role) {
    SelectedCount(r.candidates) == 0 || SelectedCount(r.candidates) <= r.positions
  }

  predicate RoleValid(r: Role) {
    DistinctIds(r.candidates) && WithinPositions(r)
  }

  /** Changing one candidate changes the count by what that candidate contributes. */
  lemma {:induction false} SelectedCountUpdate(cs: seq<Candidate>, i: nat, c: Candidate)
    requires i < |cs|
    ensures SelectedCount(cs[i := c])
      == SelectedCount(cs) - (if IsSelected(cs[i]) then 1 else 0) + (if IsSelected(c) then 1 else 0)
  {
    if i > 0 {
      assert cs[i := c][1..] == cs[1..][i - 1 := c];
      SelectedCountUpdate(cs[1..], i - 1, c);
    }
  }

  lemma {:induction false} SelectedCountAppend(cs: seq<Candidate>, c: Candidate)
    ensures SelectedCount(cs + [c]) == SelectedCount(cs) + (if IsSelected(c) then 1 else 0)
  {
    if cs != [] {
      assert (cs + [c])[1..] == cs[1..] + [c];
      SelectedCountAppend(cs[1..], c);
    }
  }

  /** Appending a candidate whose id is new keeps the ids distinct. */
  lemma DistinctIdsAppend(cs: seq<Candidate>, c: Candidate)
    requires DistinctIds(cs) && !HasId(cs, c.submissionId)
    ensures DistinctIds(cs + [c])
  {
    var ds := cs + [c];
    forall i, j | 0 <= i < j < |ds|
      ensures ds[i].submissionId != ds[j].submissionId
    {
      if j == |cs| {
        assert ds[i] == cs[i];
      } else {
        assert ds[i] == cs[i] && ds[j] == cs[j];
      }
    }
  }

  /**
   * With distinct ids, the candidates other than `cs[i]` are all the candidates but `cs[i]`:
   * excluding by `submission_id` excludes exactly the one candidate.
   */
  lemma {:induction false} SelectedOthersExcludesOne(cs: seq<Candidate>, i: nat)
    requires i < |cs| && DistinctIds(cs)
    ensures SelectedOthers(cs, cs[i].submissionId)
      == SelectedCount(cs) - (if IsSelected(cs[i]) then 1 else 0)
  {
    if i == 0 {
      SelectedOthersNone(cs[1..], cs[0].submissionId);
    } else {
      SelectedOthersExcludesOne(cs[1..], i - 1);
    }
  }

  lemma {:induction false} SelectedOthersNone(cs: seq<Candidate>, id: string)
    requires !HasId(cs, id)
    ensures SelectedOthers(cs, id) == SelectedCount(cs)
  {
    if cs != [] {
      assert cs[0].submissionId != id;
      assert !HasId(cs[1..], id) by {
        forall k | 0 <= k < |cs| - 1
          ensures cs[1..][k].submissionId != id
        {
          assert cs[1..][k] == cs[k + 1];
        }
      }
      SelectedOthersNone(cs[1..], id);
    }
  }

  /**
   * `(evaluation or {}).get("overall_score", 50)` as a number: a falsy evaluation or one without
   * a score counts as 50, a boolean as 0 or 1. `None` when the thread raises (the exception it
   * swallows): the evaluation is truthy but not a dict, or the score is text, null, a list or a
   * dict. A float score also gives `None`: Python compares it with 71 and 40, this model does not.
   */
  function ScoreOf(evaluation: Json): (r: Option<int>)
    ensures !Truthy(evaluation) ==> r == Some(50)
    ensures evaluation.JObj? && Truthy(evaluation) && !HasKey(evaluation, "overall_score") ==> r == Some(50)
    ensures r.Some? && Truthy(evaluation) && HasKey(evaluation, "overall_score") ==>
      Lookup(evaluation.members, "overall_score").value in {JNum(r.value), JBool(r.value == 1)}
  {
    if !Truthy(evaluation) then Some(50)
    else if !evaluation.JObj? then None
    else
      match Lookup(evaluation.members, "overall_score")
      case None => Some(50)
      case Some(JNum(n)) => Some(n)
      case Some(JBool(b)) => Some(if b then 1 else 0)
      case Some(_) => None
  }

  /**
   * The automatic status for a score: "selected" from 71 up unless the other selected candidates
   * already fill the positions ("waitlisted" then), "rejected" up to 40, "waitlisted" between.
   */
  function StatusForScore(score: int, othersSelected: nat, positions: int): (r: string)
    ensures r == "selected" <==> score >= 71 && othersSelected < positions
    ensures r == "rejected" <==> score <= 40
    ensures r == "waitlisted" <==> (41 <= score <= 70 || (score >= 71 && othersSelected >= positions))
  {
    if score >= 71 then (if othersSelected >= positions then "waitlisted" else "selected")
    else if score <= 40 then "rejected"
    else "waitlisted"
  }

  /**
   * The ranking key of `get_role`: `c.get("evaluation", {}).get("overall_score", 0)`. Every
   * stored candidate has an "evaluation" key, so a null evaluation (a candidate not analysed
   * yet) has no key: `None`.
   */
  function RankKey(c: Candidate): (r: Option<int>)
    ensures !c.evaluation.JObj? ==> r.None?
    ensures c.evaluation.JObj? && !HasKey(c.evaluation, "overall_score") ==> r == Some(0)
  {
    if !c.evaluation.JObj? then None
    else
      match Lookup(c.evaluation.members, "overall_score")
      case None => Some(0)
      case Some(JNum(n)) => Some(n)
      case Some(JBool(b)) => Some(if b then 1 else 0)
      case Some(_) => None
  }

  /**
   * Whether the sort of `get_role` raises on `cs`. The key raises for an evaluation that is not
   * a dict (null before the analysis), whatever the number of candidates. Keys are compared only
   * when there are two or more candidates, and this model compares integer scores only (booleans
   * as 0 and 1), so there any other score makes the sort raise.
   */
  predicate SortRaises(cs: seq<Candidate>) {
    exists i :: 0 <= i < |cs| && RankKey(cs[i]).None? && (!cs[i].evaluation.JObj? || |cs| >= 2)
  }

  /** The ranking key as a total function, for sorting lists whose keys all exist. */
  function Rank(c: Candidate): int {
    RankKey(c).GetOr(0)
  }
}
