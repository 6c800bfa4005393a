/**
 * The developer-recruitment store and its handlers: roles in creation order, each with its
 * candidates, and the set of submission ids already imported from Google Sheets. Every handler
 * keeps the slot limit: a role never has more selected candidates than positions.
 */
module DevModule {
  import opened Wrappers
  import opened Json
  import opened DevRecords
  import Tally
  import Sheets
  import Sorting

  /** A row of `list_roles`. */
  datatype RoleSummary = RoleSummary(
    id: string, name: Json, jd: string, ctc: string, positions: int, tallyLink: string,
    tallyFormId: Json, sheetUrl: string, totalCandidates: nat, selectedCount: nat)

  function Summary(id: string, r: Role): RoleSummary {
    RoleSummary(id, r.name, r.jd, r.ctc, r.positions, r.tallyLink, r.tallyFormId, r.sheetUrl,
      |r.candidates|, SelectedCount(r.candidates))
  }

  /** The reply of `get_role`: not found, the error the ranking key raises, or the role with its ranking. */
  datatype RoleView =
    | RoleNotFound
    | Unrankable
    | RoleDetail(id: string, role: Role, selectedCount: nat, ranked: seq<Candidate>)

  datatype StatusOutcome = NoSuchRole | NoSuchCandidate | PositionsFilled(positions: int) | StatusUpdated(status: string)

  /**
   * The reply of `tally_webhook`. `Crashed` is an exception escaping the handler;
   * `UnsupportedId` a submission id that is a number, boolean or null.
   */
  datatype WebhookOutcome =
    | InvalidJson
    | Crashed
    | NoFields
    | Duplicate
    | Received(candidateName: Json, roleName: Json)
    | UnsupportedId

  predicate Distinct(ids: seq<string>) {
    forall i, j :: 0 <= i < j < |ids| ==> ids[i] != ids[j]
  }

  /** `ids` without `id`. */
  function Without(ids: seq<string>, id: string): (r: seq<string>)
    ensures forall x :: x in r <==> x in ids && x != id
    ensures Distinct(ids) ==> Distinct(r)
  {
    if ids == [] then []
    else
      var rest := Without(ids[1..], id);
      if ids[0] == id then rest
      else
        assert Distinct(ids) ==> ids[0] !in ids[1..];
        [ids[0]] + rest
  }

  /** The role was created for the form `formId`. */
  predicate HasFormId(role: Role, formId: Json) {
    role.tallyFormId == formId
  }

  /** The first position of a role whose form id is `formId`. */
  function FirstWithForm(order: seq<string>, roles: map<string, Role>, formId: Json): (r: Option<nat>)
    requires forall id :: id in order ==> id in roles
    ensures r.Some? ==> r.value < |order| && HasFormId(roles[order[r.value]], formId)
    ensures r.Some? ==> forall j :: 0 <= j < r.value ==> !HasFormId(roles[order[j]], formId)
    ensures r.None? ==> forall j :: 0 <= j < |order| ==> !HasFormId(roles[order[j]], formId)
  {
    if order == [] then None
    else if HasFormId(roles[order[0]], formId) then Some(0)
    else
      match FirstWithForm(order[1..], roles, formId)
      case None => None
      case Some(k) => Some(k + 1)
  }

  /** A position is the first with form id `formId` when none before it has it. */
  lemma FirstWithFormIsFirst(order: seq<string>, roles: map<string, Role>, formId: Json, i: nat)
    requires forall id :: id in order ==> id in roles
    requires i <= |order| && forall j :: 0 <= j < i ==> !HasFormId(roles[order[j]], formId)
    ensures i < |order| && HasFormId(roles[order[i]], formId) ==> FirstWithForm(order, roles, formId) == Some(i)
    ensures i == |order| ==> FirstWithForm(order, roles, formId) == None
  {
  }

  /** The first position of a role with no (a falsy) form id. */
  function FirstUnset(order: seq<string>, roles: map<string, Role>): (r: Option<nat>)
    requires forall id :: id in order ==> id in roles
    ensures r.Some? ==> r.value < |order| && !Truthy(roles[order[r.value]].tallyFormId)
    ensures r.Some? ==> forall j :: 0 <= j < r.value ==> Truthy(roles[order[j]].tallyFormId)
    ensures r.None? ==> forall j :: 0 <= j < |order| ==> Truthy(roles[order[j]].tallyFormId)
  {
    if order == [] then None
    else if !Truthy(roles[order[0]].tallyFormId) then Some(0)
    else
      match FirstUnset(order[1..], roles)
      case None => None
      case Some(k) => Some(k + 1)
  }

  /** A position is the first with no form id when every role before it has one. */
  lemma FirstUnsetIsFirst(order: seq<string>, roles: map<string, Role>, i: nat)
    requires forall id :: id in order ==> id in roles
    requires i <= |order| && forall j :: 0 <= j < i ==> Truthy(roles[order[j]].tallyFormId)
    ensures i < |order| && !Truthy(roles[order[i]].tallyFormId) ==> FirstUnset(order, roles) == Some(i)
    ensures i == |order| ==> FirstUnset(order, roles) == None
  {
  }

  /**
   * The role a Tally submission goes to: the first role whose form id is the submission's, else
   * the first role with no form id, else the first role; `None` when there are no roles.
   */
  function RouteRole(order: seq<string>, roles: map<string, Role>, formId: Json): (r: Option<string>)
    requires forall id :: id in order ==> id in roles
    ensures r.None? <==> order == []
    ensures r.Some? ==> r.value in order
  {
    match FirstWithForm(order, roles, formId)
    case Some(i) => Some(order[i])
    case None =>
      match FirstUnset(order, roles)
      case Some(i) => Some(order[i])
      case None => if order != [] then Some(order[0]) else None
  }

  /**
   * The routing rule: a role with the submission's form id wins; failing that, a role with no
   * form id; failing that, the first role.
   */
  lemma RouteRolePrefers(order: seq<string>, roles: map<string, Role>, formId: Json)
    requires forall id :: id in order ==> id in roles
    ensures (exists i :: 0 <= i < |order| && roles[order[i]].tallyFormId == formId) ==>
              RouteRole(order, roles, formId).Some? && roles[RouteRole(order, roles, formId).value].tallyFormId == formId
    ensures ((forall i :: 0 <= i < |order| ==> roles[order[i]].tallyFormId != formId)
             && (exists i :: 0 <= i < |order| && !Truthy(roles[order[i]].tallyFormId))) ==>
              RouteRole(order, roles, formId).Some? && !Truthy(roles[RouteRole(order, roles, formId).value].tallyFormId)
    ensures ((forall i :: 0 <= i < |order| ==> roles[order[i]].tallyFormId != formId && Truthy(roles[order[i]].tallyFormId))
             && order != []) ==>
              RouteRole(order, roles, formId) == Some(order[0])
  {
  }

  /** The role created for a submission when there are no roles at all. */
  function DefaultRole(formName: Json, formId: Json, now: string): Role {
    Role(formName, "", "", 10, "", formId, "", [], now)
  }

  /** `payload.get("data", {})` (null when `payload` is not a dict). */
  function DataOf(payload: Json): Json {
    Get(payload, "data", JObj([])).GetOr(JNull)
  }

  /** `data.get(key, default)` (null when `data` is not a dict). */
  function FieldOf(data: Json, key: string, default: Json): Json {
    Get(data, key, default).GetOr(JNull)
  }

  /** The role a sheet's rows go to: `"__global__"` stands for the first role. */
  function SheetTarget(targetRoleId: string, order: seq<string>): (r: Option<string>)
    ensures targetRoleId != "__global__" ==> r == Some(targetRoleId)
    ensures targetRoleId == "__global__" ==> r == (if order == [] then None else Some(order[0]))
  {
    if targetRoleId == "__global__" then (if order == [] then None else Some(order[0]))
    else Some(targetRoleId)
  }

  /** The ids of the candidates whose evaluation is falsy, in order: those `analyze_role_candidates` starts. */
  function Unanalyzed(cs: seq<Candidate>): (r: seq<string>)
    ensures |r| <= |cs|
    ensures forall i :: 0 <= i < |cs| && !Truthy(cs[i].evaluation) ==> cs[i].submissionId in r
    ensures forall id :: id in r ==> exists i :: 0 <= i < |cs| && cs[i].submissionId == id && !Truthy(cs[i].evaluation)
  {
    if cs == [] then []
    else
      var rest := Unanalyzed(cs[1..]);
      assert forall i :: 1 <= i < |cs| ==> cs[i] == cs[1..][i - 1];
      if Truthy(cs[0].evaluation) then rest else [cs[0].submissionId] + rest
  }

  /** The store's invariant: role ids listed once each, non-empty, and every role valid. */
  ghost predicate StoreValid(order: seq<string>, roles: map<string, Role>) {
    && Distinct(order)
    && (forall id :: id in roles <==> id in order)
    && (forall id :: id in roles ==> id != [] && RoleValid(roles[id]))
  }

  /** Setting one role's candidates twice is setting them to the second list. */
  lemma SetCandidatesTwice(base: map<string, Role>, rid: string, a: seq<Candidate>, b: seq<Candidate>)
    requires rid in base
    ensures var once := base[rid := base[rid].(candidates := a)];
      once[rid := once[rid].(candidates := b)] == base[rid := base[rid].(candidates := b)]
  {
  }

  lemma ReplaceRoleKeepsValid(order: seq<string>, roles: map<string, Role>, rid: string, role: Role)
    requires StoreValid(order, roles) && rid in roles && RoleValid(role)
    ensures StoreValid(order, roles[rid := role])
  {
  }

  /**
   * Replacing a candidate by one with the same id keeps a role valid, provided a selected
   * replacement still fits beside the other selected candidates.
   */
  lemma ReplaceCandidateKeepsValid(role: Role, i: nat, c: Candidate)
    requires RoleValid(role) && i < |role.candidates|
    requires c.submissionId == role.candidates[i].submissionId
    requires IsSelected(c) && !IsSelected(role.candidates[i]) ==> SelectedCount(role.candidates) < role.positions
    ensures RoleValid(role.(candidates := role.candidates[i := c]))
  {
    var cs := role.candidates;
    var updated := cs[i := c];
    SelectedCountUpdate(cs, i, c);
    forall a, b | 0 <= a < b < |updated|
      ensures updated[a].submissionId != updated[b].submissionId
    {
      assert updated[a].submissionId == cs[a].submissionId;
      assert updated[b].submissionId == cs[b].submissionId;
    }
  }

  /**
   * Candidate `i` of `role` once its analysis is stored: the three results, and the status its
   * score gives beside the other selected candidates (the status is kept when the score cannot
   * be compared with a number).
   */
  function Analyzed(role: Role, i: nat, githubAnalysis: Json, resumeAnalysis: Json, evaluation: Json): (c: Candidate)
    requires i < |role.candidates|
    ensures c.submissionId == role.candidates[i].submissionId
    ensures c.githubAnalysis == githubAnalysis && c.resumeAnalysis == resumeAnalysis && c.evaluation == evaluation
    ensures ScoreOf(evaluation).None? ==> c.status == role.candidates[i].status
  {
    var c := role.candidates[i];
    var status :=
      match ScoreOf(evaluation)
      case None => c.status
      case Some(score) => StatusForScore(score, SelectedOthers(role.candidates, c.submissionId), role.positions);
    c.(githubAnalysis := githubAnalysis, resumeAnalysis := resumeAnalysis, evaluation := evaluation, status := status)
  }

  /**
   * Storing an analysis keeps the role valid: a score of 71 or more selects the candidate only
   * while the other selected candidates leave a position free.
   */
  lemma AnalyzedKeepsValid(role: Role, i: nat, githubAnalysis: Json, resumeAnalysis: Json, evaluation: Json)
    requires RoleValid(role) && i < |role.candidates|
    ensures RoleValid(role.(candidates := role.candidates[i := Analyzed(role, i, githubAnalysis, resumeAnalysis, evaluation)]))
    ensures ScoreOf(evaluation).Some? ==>
      var c := Analyzed(role, i, githubAnalysis, resumeAnalysis, evaluation);
      var others := SelectedCount(role.candidates) - (if IsSelected(role.candidates[i]) then 1 else 0);
      && (IsSelected(c) <==> ScoreOf(evaluation).value >= 71 && others < role.positions)
      && (c.status == "rejected" <==> ScoreOf(evaluation).value <= 40)
  {
    if ScoreOf(evaluation).Some? {
      SelectedOthersExcludesOne(role.candidates, i);
    }
    ReplaceCandidateKeepsValid(role, i, Analyzed(role, i, githubAnalysis, resumeAnalysis, evaluation));
  }

  /** Appending a candidate that is new and not selected keeps a role valid. */
  lemma AppendCandidateKeepsValid(role: Role, c: Candidate)
    requires RoleValid(role) && !HasId(role.candidates, c.submissionId) && !IsSelected(c)
    ensures RoleValid(role.(candidates := role.candidates + [c]))
  {
    SelectedCountAppend(role.candidates, c);
    DistinctIdsAppend(role.candidates, c);
  }

  /**
   * `after` is `before` with one new candidate `id`, waitlisted and not yet analysed, appended
   * to role `rid` (a role created empty when there was none); every other role is unchanged.
   */
  ghost predicate AddedOne(before: map<string, Role>, after: map<string, Role>, rid: string, id: string) {
    var prev := if rid in before then before[rid].candidates else [];
    && rid in after && !HasId(prev, id)
    && after.Keys == before.Keys + {rid}
    && (forall other :: other in before && other != rid ==> after[other] == before[other])
    && |after[rid].candidates| == |prev| + 1
    && after[rid].candidates[..|prev|] == prev
    && after[rid].candidates[|prev|].submissionId == id
    && after[rid].candidates[|prev|].status == "waitlisted"
    && after[rid].candidates[|prev|].evaluation == JNull
  }

  /**
   * Appending a new candidate to the routed role adds one candidate, whether the role existed
   * or was just created empty for a store without roles.
   */
  lemma AppendIsAddedOne(before: map<string, Role>, routed: map<string, Role>, rid: string, c: Candidate)
    requires rid in routed
    requires (rid in before && routed == before) || (before == map[] && routed.Keys == {rid} && routed[rid].candidates == [])
    requires !HasId(routed[rid].candidates, c.submissionId) && c.status == "waitlisted" && c.evaluation == JNull
    ensures AddedOne(before, routed[rid := routed[rid].(candidates := routed[rid].candidates + [c])], rid, c.submissionId)
  {
    var prev := routed[rid].candidates;
    assert (prev + [c])[..|prev|] == prev;
  }

  /** The store once a submission is routed: as it was when there are roles, else one default role. */
  function Routed(order: seq<string>, roles: map<string, Role>, formId: Json, formName: Json, freshId: string, now: string)
    : map<string, Role>
  {
    if order == [] then map[freshId := DefaultRole(formName, formId, now)] else roles
  }

  /**
   * What the webhook does with a parsed submission once it is routed to role `rid` of store
   * `routed`, as outcome `r` and the roles `after` it: a list or dict id raises, another
   * non-string id is not supported, a string id the role holds is a duplicate, and any other
   * string id appends `candidate` to that role and nothing else.
   */
  ghost predicate AdmitEffect(routed: map<string, Role>, rid: string, submission: Json, candidate: Candidate,
                              r: WebhookOutcome, after: map<string, Role>)
  {
    && rid in routed
    && (r.Crashed? <==> submission.JArr? || submission.JObj?)
    && (r.UnsupportedId? <==> submission.JNull? || submission.JBool? || submission.JNum? || submission.JFloat?)
    && (r.Duplicate? <==> submission.JStr? && HasId(routed[rid].candidates, submission.s))
    && (r.Received? <==> submission.JStr? && !HasId(routed[rid].candidates, submission.s))
    && (!r.Received? ==> after == routed)
    && (r.Received? ==>
          && after == routed[rid := routed[rid].(candidates := routed[rid].candidates + [candidate])]
          && r == Received(candidate.name, routed[rid].name))
  }

  /**
   * The whole of the webhook after parsing: the submission is routed (a default role is created
   * when there are no roles), then admitted to the routed role as `AdmitEffect` says; `afterOrder`
   * and `after` are the store it leaves.
   */
  ghost predicate IntakeEffect(order: seq<string>, before: map<string, Role>, formId: Json, formName: Json,
                               submission: Json, candidate: Candidate, freshId: string, now: string,
                               r: WebhookOutcome, afterOrder: seq<string>, after: map<string, Role>)
    requires forall id :: id in order ==> id in before
  {
    && afterOrder == (if order == [] then [freshId] else order)
    && AdmitEffect(Routed(order, before, formId, formName, freshId, now), RouteRole(order, before, formId).GetOr(freshId),
                   submission, candidate, r, after)
  }

  /** How `tally_webhook` reads a JSON request body, up to the parsed candidate. */
  datatype WebhookInput =
    | DataNotDict
    | NoFieldsGiven
    | FieldsRaise
    | Parsed(formId: Json, formName: Json, submission: Json, candidate: Candidate)

  /**
   * `payload.get("data", {})` and the `data.get` calls raise unless both are dicts; falsy fields
   * are answered without parsing; fields that are not a list, or a field that cannot be read,
   * make the parse raise; otherwise the candidate is parsed with the submission id (a non-string
   * id is parsed with "", as such an id never gets stored).
   */
  function ReadWebhook(payload: Json, now: string): (w: WebhookInput)
    ensures w.Parsed? ==> w.candidate.status == "waitlisted" && w.candidate.evaluation == JNull
    ensures w.Parsed? && w.submission.JStr? ==> w.candidate.submissionId == w.submission.s
  {
    var data := DataOf(payload);
    if !data.JObj? then DataNotDict
    else
      var fields := FieldOf(data, "fields", JArr([]));
      if !Truthy(fields) then NoFieldsGiven
      else if !fields.JArr? then FieldsRaise
      else
        var submission := FieldOf(data, "submissionId", JStr(""));
        var idText := if submission.JStr? then submission.s else "";
        match Tally.ApplyFields(NewCandidate(idText, JStr(now)), fields.items)
        case None => FieldsRaise
        case Some(c) =>
          Tally.ParsedCandidateIsFresh(idText, now, fields.items);
          Parsed(FieldOf(data, "formId", JStr("")), FieldOf(data, "formName", JStr("Default Role")), submission, c)
  }

  /** A role whose candidates only grew by an import stays valid. */
  lemma RoleKeepsValid(role: Role, cs: seq<Candidate>)
    requires RoleValid(role)
    requires DistinctIds(role.candidates) ==> DistinctIds(cs)
    requires SelectedCount(cs) == SelectedCount(role.candidates)
    ensures RoleValid(role.(candidates := cs))
  {
  }

  /** The in-memory store. */
  class DevStore {
    /** The role ids in creation order (the dict's insertion order). */
    var roleOrder: seq<string>
    var roles: map<string, Role>
    /** Submission ids already imported from a sheet. */
    var sheetLastIds: set<string>

    ghost predicate Valid()
      reads this
    {
      StoreValid(roleOrder, roles)
    }

    constructor()
      ensures Valid()
      ensures roleOrder == [] && roles == map[] && sheetLastIds == {}
    {
      roleOrder := [];
      roles := map[];
      sheetLastIds := {};
    }

    /** `list_roles`: one summary per role, in creation order. */
    method ListRoles() returns (r: seq<RoleSummary>)
      requires Valid()
      ensures |r| == |roleOrder|
      ensures forall i :: 0 <= i < |r| ==> r[i] == Summary(roleOrder[i], roles[roleOrder[i]])
      ensures forall i :: 0 <= i < |r| ==>
        r[i].selectedCount <= r[i].totalCandidates && (r[i].selectedCount == 0 || r[i].selectedCount <= r[i].positions)
    {
      r := [];
      for i := 0 to |roleOrder|
        invariant |r| == i
        invariant forall k :: 0 <= k < i ==> r[k] == Summary(roleOrder[k], roles[roleOrder[k]])
      {
        var id := roleOrder[i];
        r := r + [Summary(id, roles[id])];
      }
    }

    /** `create_role` with the fresh id and the clock reading passed in. */
    method CreateRole(id: string, name: string, jd: string, ctc: string, positions: int,
                      tallyLink: string, tallyFormId: string, sheetUrl: string, now: string)
      requires Valid() && id != []
      modifies this
      ensures Valid()
      ensures roles == old(roles)[id := Role(JStr(name), jd, ctc, positions, tallyLink, JStr(tallyFormId), sheetUrl, [], now)]
      ensures roleOrder == if id in old(roles) then old(roleOrder) else old(roleOrder) + [id]
      ensures sheetLastIds == old(sheetLastIds)
    {
      if id !in roles {
        roleOrder := roleOrder + [id];
      }
      roles := roles[id := Role(JStr(name), jd, ctc, positions, tallyLink, JStr(tallyFormId), sheetUrl, [], now)];
    }

    /**
     * `get_role`: the role with its candidates ranked by score, highest first, ties in insertion
     * order. Ranking reads `evaluation.overall_score` of every candidate, so a role holding a
     * candidate whose evaluation is still null (every candidate before its analysis) cannot be
     * shown; a lone candidate is never compared, so its score may be of any kind.
     */
    method GetRole(roleId: string) returns (v: RoleView)
      requires Valid()
      ensures v.RoleNotFound? <==> roleId !in roles
      ensures v.Unrankable? <==> roleId in roles && SortRaises(roles[roleId].candidates)
      ensures v.RoleDetail? ==>
        && v.id == roleId && roleId in roles && v.role == roles[roleId]
        && v.selectedCount == SelectedCount(v.role.candidates)
        && (v.selectedCount == 0 || v.selectedCount <= v.role.positions)
        && Sorting.SortedDesc(v.ranked, Rank)
        && multiset(v.ranked) == multiset(v.role.candidates)
        && (forall k :: Sorting.WithKey(v.ranked, Rank, k) == Sorting.WithKey(v.role.candidates, Rank, k))
    {
      if roleId !in roles {
        return RoleNotFound;
      }
      var role := roles[roleId];
      var i := 0;
      while i < |role.candidates|
        invariant 0 <= i <= |role.candidates|
        invariant forall k :: 0 <= k < i ==>
          RankKey(role.candidates[k]).Some? || (role.candidates[k].evaluation.JObj? && |role.candidates| < 2)
      {
        if RankKey(role.candidates[i]).None? && (!role.candidates[i].evaluation.JObj? || |role.candidates| >= 2) {
          return Unrankable;
        }
        i := i + 1;
      }
      var ranked := Sorting.SortDesc(role.candidates, Rank);
      Sorting.SortDescSorted(role.candidates, Rank);
      forall k
        ensures Sorting.WithKey(ranked, Rank, k) == Sorting.WithKey(role.candidates, Rank, k)
      {
        Sorting.SortDescStable(role.candidates, Rank, k);
      }
      return RoleDetail(roleId, role, SelectedCount(role.candidates), ranked);
    }

    /** `delete_role`: the deleted role's name, or `None` when there is no such role. */
    method DeleteRole(roleId: string) returns (deleted: Option<Json>)
      requires Valid()
      modifies this
      ensures Valid()
      ensures deleted == if roleId in old(roles) then Some(old(roles)[roleId].name) else None
      ensures roles == old(roles) - {roleId}
      ensures roleOrder == Without(old(roleOrder), roleId)
      ensures sheetLastIds == old(sheetLastIds)
    {
      if roleId !in roles {
        roleOrder := Without(roleOrder, roleId);
        return None;
      }
      deleted := Some(roles[roleId].name);
      roles := roles - {roleId};
      roleOrder := Without(roleOrder, roleId);
    }

    /**
     * `update_candidate_status`. Selecting is refused when the selected candidates already fill
     * the positions. The count meant to leave the candidate out compares each record's "id" with
     * the candidate id, but stored records carry only "submission_id", so the candidate itself is
     * always counted: re-selecting an already selected candidate of a full role is refused.
     */
    method UpdateCandidateStatus(roleId: string, candidateId: string, status: string) returns (r: StatusOutcome)
      requires Valid()
      modifies this
      ensures Valid()
      ensures roleOrder == old(roleOrder) && sheetLastIds == old(sheetLastIds)
      ensures r == NoSuchRole <==> roleId !in old(roles)
      ensures r == NoSuchCandidate <==> roleId in old(roles) && !HasId(old(roles)[roleId].candidates, candidateId)
      ensures r.PositionsFilled? <==>
        && roleId in old(roles) && HasId(old(roles)[roleId].candidates, candidateId) && status == "selected"
        && SelectedCount(old(roles)[roleId].candidates) >= old(roles)[roleId].positions
      ensures !r.StatusUpdated? ==> roles == old(roles)
      ensures r.StatusUpdated? ==>
        && r.status == status && roleId in old(roles)
        && FindCandidate(old(roles)[roleId].candidates, candidateId).Some?
        && var role := old(roles)[roleId];
           var i := FindCandidate(role.candidates, candidateId).value;
           roles == old(roles)[roleId := role.(candidates := role.candidates[i := role.candidates[i].(status := status)])]
    {
      if roleId !in roles {
        return NoSuchRole;
      }
      var role := roles[roleId];
      var found := FindCandidate(role.candidates, candidateId);
      if found.None? {
        return NoSuchCandidate;
      }
      var i := found.value;
      if status == "selected" {
        var selectedCount := SelectedCount(role.candidates);
        if selectedCount >= role.positions {
          return PositionsFilled(role.positions);
        }
      }
      var c := role.candidates[i].(status := status);
      ReplaceCandidateKeepsValid(role, i, c);
      ReplaceRoleKeepsValid(roleOrder, roles, roleId, role.(candidates := role.candidates[i := c]));
      roles := roles[roleId := role.(candidates := role.candidates[i := c])];
      return StatusUpdated(status);
    }

    /** The first loop of `tally_webhook`'s routing: a role with the submission's form id. */
    method FindByFormId(formId: Json) returns (r: Option<nat>)
      requires Valid()
      ensures r == FirstWithForm(roleOrder, roles, formId)
    {
      for i := 0 to |roleOrder|
        invariant forall j :: 0 <= j < i ==> !HasFormId(roles[roleOrder[j]], formId)
      {
        if HasFormId(roles[roleOrder[i]], formId) {
          FirstWithFormIsFirst(roleOrder, roles, formId, i);
          return Some(i);
        }
      }
      FirstWithFormIsFirst(roleOrder, roles, formId, |roleOrder|);
      return None;
    }

    /** The second loop: a role with no form id. */
    method FindUnset() returns (r: Option<nat>)
      requires Valid()
      ensures r == FirstUnset(roleOrder, roles)
    {
      for i := 0 to |roleOrder|
        invariant forall j :: 0 <= j < i ==> Truthy(roles[roleOrder[j]].tallyFormId)
      {
        if !Truthy(roles[roleOrder[i]].tallyFormId) {
          FirstUnsetIsFirst(roleOrder, roles, i);
          return Some(i);
        }
      }
      FirstUnsetIsFirst(roleOrder, roles, |roleOrder|);
      return None;
    }

    /** The three routing steps of `tally_webhook`. */
    method FindRole(formId: Json) returns (r: Option<string>)
      requires Valid()
      ensures r == RouteRole(roleOrder, roles, formId)
    {
      var byForm := FindByFormId(formId);
      if byForm.Some? {
        return Some(roleOrder[byForm.value]);
      }
      var unset := FindUnset();
      if unset.Some? {
        return Some(roleOrder[unset.value]);
      }
      if roleOrder != [] {
        return Some(roleOrder[0]);
      }
      return None;
    }

    /** The routed role, or a default role created for the submission when there are none. */
    method RouteOrCreate(formId: Json, formName: Json, freshRoleId: string, now: string) returns (rid: string)
      requires Valid() && freshRoleId != []
      modifies this
      ensures Valid() && rid in roles && sheetLastIds == old(sheetLastIds)
      ensures old(roleOrder) != [] ==>
        rid == RouteRole(old(roleOrder), old(roles), formId).value && roles == old(roles) && roleOrder == old(roleOrder)
      ensures old(roleOrder) == [] ==>
        rid == freshRoleId && roles == map[rid := DefaultRole(formName, formId, now)] && roleOrder == [rid]
    {
      var matched := FindRole(formId);
      if matched.None? {
        roles := map[freshRoleId := DefaultRole(formName, formId, now)];
        roleOrder := [freshRoleId];
        return freshRoleId;
      }
      return matched.value;
    }

    /**
     * The part of `tally_webhook` after the fields are parsed: route the submission (creating a
     * default role when there are none), refuse an id the role already holds, else append the
     * candidate. An unhashable id (a list or dict) raises after routing.
     */
    method Intake(formId: Json, formName: Json, submission: Json, candidate: Candidate, freshRoleId: string, now: string)
      returns (r: WebhookOutcome)
      requires Valid() && freshRoleId != []
      requires candidate.status == "waitlisted" && candidate.evaluation == JNull
      requires submission.JStr? ==> candidate.submissionId == submission.s
      modifies this
      ensures Valid()
      ensures sheetLastIds == old(sheetLastIds)
      ensures r.Crashed? <==> submission.JArr? || submission.JObj?
      ensures r.UnsupportedId? <==> submission.JNull? || submission.JBool? || submission.JNum? || submission.JFloat?
      ensures r.Duplicate? || r.Received? <==> submission.JStr?
      ensures old(roleOrder) != [] && !r.Received? ==> roles == old(roles) && roleOrder == old(roleOrder)
      ensures r.Duplicate? ==> roles == old(roles) && roleOrder == old(roleOrder)
      ensures r.Received? ==>
        && AddedOne(old(roles), roles, RouteRole(old(roleOrder), old(roles), formId).GetOr(freshRoleId), submission.s)
        && r == Received(candidate.name, roles[RouteRole(old(roleOrder), old(roles), formId).GetOr(freshRoleId)].name)
      ensures IntakeEffect(old(roleOrder), old(roles), formId, formName, submission, candidate, freshRoleId, now,
                           r, roleOrder, roles)
    {
      ghost var before := roles;
      ghost var routedId := RouteRole(roleOrder, roles, formId).GetOr(freshRoleId);
      ghost var routed := Routed(roleOrder, roles, formId, formName, freshRoleId, now);
      var rid := RouteOrCreate(formId, formName, freshRoleId, now);
      assert rid == routedId && roles == routed;
      r := Admit(rid, submission, candidate);
      if r.Received? {
        AppendIsAddedOne(before, routed, rid, candidate);
      }
    }

    /**
     * The part of `tally_webhook` after routing to role `rid`: refuse an id the role already
     * holds, else append the candidate. An unhashable id (a list or dict) raises.
     */
    method Admit(rid: string, submission: Json, candidate: Candidate) returns (r: WebhookOutcome)
      requires Valid() && rid in roles
      requires candidate.status == "waitlisted"
      requires submission.JStr? ==> candidate.submissionId == submission.s
      modifies this
      ensures Valid()
      ensures roleOrder == old(roleOrder) && sheetLastIds == old(sheetLastIds)
      ensures AdmitEffect(old(roles), rid, submission, candidate, r, roles)
    {
      if submission.JArr? || submission.JObj? {
        return Crashed;
      }
      if !submission.JStr? {
        return UnsupportedId;
      }
      if HasId(roles[rid].candidates, submission.s) {
        return Duplicate;
      }
      var roleName := roles[rid].name;
      AppendCandidate(rid, candidate);
      return Received(candidate.name, roleName);
    }

    /** Appends a new, waitlisted candidate to role `rid`. */
    method AppendCandidate(rid: string, candidate: Candidate)
      requires Valid() && rid in roles
      requires candidate.status == "waitlisted" && !HasId(roles[rid].candidates, candidate.submissionId)
      modifies this
      ensures Valid()
      ensures roleOrder == old(roleOrder) && sheetLastIds == old(sheetLastIds)
      ensures roles == old(roles)[rid := old(roles)[rid].(candidates := old(roles)[rid].candidates + [candidate])]
    {
      var role := roles[rid];
      AppendCandidateKeepsValid(role, candidate);
      ReplaceRoleKeepsValid(roleOrder, roles, rid, role.(candidates := role.candidates + [candidate]));
      roles := roles[rid := role.(candidates := role.candidates + [candidate])];
    }

    /**
     * `tally_webhook` on the decoded request body (`None` when the body is not JSON), with the
     * fresh role id and the clock reading passed in. A submission already present in the routed
     * role is refused; otherwise the parsed candidate is appended to the routed role, and every
     * other role is left as it was.
     */
    method TallyWebhook(payload: Option<Json>, freshRoleId: string, now: string) returns (r: WebhookOutcome)
      requires Valid() && freshRoleId != []
      modifies this
      ensures Valid()
      ensures sheetLastIds == old(sheetLastIds)
      ensures payload.None? ==> r == InvalidJson
      ensures r.InvalidJson? || r.NoFields? || r.Duplicate? ==> roles == old(roles) && roleOrder == old(roleOrder)
      ensures r.NoFields? ==> payload.Some? && !Truthy(FieldOf(DataOf(payload.value), "fields", JArr([])))
      ensures r.Received? ==>
        && payload.Some?
        && var data := DataOf(payload.value);
           var id := FieldOf(data, "submissionId", JStr(""));
           && id.JStr?
           && AddedOne(old(roles), roles, RouteRole(old(roleOrder), old(roles), FieldOf(data, "formId", JStr(""))).GetOr(freshRoleId), id.s)
      ensures payload.Some? && !ReadWebhook(payload.value, now).Parsed? ==>
        && roles == old(roles) && roleOrder == old(roleOrder)
        && r == (if ReadWebhook(payload.value, now).NoFieldsGiven? then NoFields else Crashed)
      ensures payload.Some? && ReadWebhook(payload.value, now).Parsed? ==>
        var w := ReadWebhook(payload.value, now);
        IntakeEffect(old(roleOrder), old(roles), w.formId, w.formName, w.submission, w.candidate, freshRoleId, now,
                     r, roleOrder, roles)
    {
      if payload.None? {
        return InvalidJson;
      }
      var data := Get(payload.value, "data", JObj([]));
      if data.None? || !data.value.JObj? {
        return Crashed;
      }
      var formId := FieldOf(data.value, "formId", JStr(""));
      var submission := FieldOf(data.value, "submissionId", JStr(""));
      var fields := FieldOf(data.value, "fields", JArr([]));
      if !Truthy(fields) {
        return NoFields;
      }
      if !fields.JArr? {
        return Crashed;
      }
      var idText := if submission.JStr? then submission.s else "";
      var parsed := Tally.ParseTallyFields(fields.items, idText, now);
      if parsed.None? {
        return Crashed;
      }
      Tally.ParsedCandidateIsFresh(idText, now, fields.items);
      var formName := FieldOf(data.value, "formName", JStr("Default Role"));
      r := Intake(formId, formName, submission, parsed.value, freshRoleId, now);
    }

    /**
     * `_analyze_candidate_async` after the analysis call: the results are stored, then the status
     * follows the score. When the score cannot be compared with a number the exception is
     * swallowed after the results were stored, so the status is kept.
     */
    method AnalyzeCandidate(roleId: string, candidateId: string, githubAnalysis: Json, resumeAnalysis: Json, evaluation: Json)
      requires Valid()
      modifies this
      ensures Valid()
      ensures roleOrder == old(roleOrder) && sheetLastIds == old(sheetLastIds)
      ensures roleId !in old(roles) || !HasId(old(roles)[roleId].candidates, candidateId) ==> roles == old(roles)
      ensures roleId in old(roles) && HasId(old(roles)[roleId].candidates, candidateId) ==>
        var role := old(roles)[roleId];
        var i := FindCandidate(role.candidates, candidateId).value;
        roles == old(roles)[roleId := role.(candidates := role.candidates[i :=
          Analyzed(role, i, githubAnalysis, resumeAnalysis, evaluation)])]
    {
      if roleId !in roles {
        return;
      }
      var role := roles[roleId];
      var found := FindCandidate(role.candidates, candidateId);
      if found.None? {
        return;
      }
      var i := found.value;
      var c := Analyzed(role, i, githubAnalysis, resumeAnalysis, evaluation);
      AnalyzedKeepsValid(role, i, githubAnalysis, resumeAnalysis, evaluation);
      ReplaceRoleKeepsValid(roleOrder, roles, roleId, role.(candidates := role.candidates[i := c]));
      roles := roles[roleId := role.(candidates := role.candidates[i := c])];
    }

    /** One pass of the row loop of `_import_from_sheet` on role `rid`, as `Sheets.ImportRow` describes. */
    method ImportOneRow(rid: string, row: Sheets.Row, now: string, count: nat) returns (raised: bool, newCount: nat)
      requires rid in roles
      modifies this
      ensures rid in roles && roleOrder == old(roleOrder)
      ensures roles == old(roles)[rid := old(roles)[rid].(candidates := roles[rid].candidates)]
      ensures
        var q := Sheets.ImportRow(Sheets.Progress(old(roles)[rid].candidates, old(sheetLastIds), count, false), row, now);
        && raised == q.failed
        && (raised ==> roles == old(roles) && sheetLastIds == old(sheetLastIds) && newCount == count)
        && (!raised ==> q == Sheets.Progress(roles[rid].candidates, sheetLastIds, newCount, false))
    {
      ghost var p := Sheets.Progress(roles[rid].candidates, sheetLastIds, count, false);
      var role := roles[rid];
      assert roles == roles[rid := role.(candidates := role.candidates)];
      var cell := Sheets.StrippedCell(row, "Submission ID");
      if cell.None? {
        Sheets.ImportRowRaises(p, row, now);
        return true, count;
      }
      var subId := cell.value;
      if subId == [] || HasId(role.candidates, subId) || subId in sheetLastIds {
        Sheets.ImportRowSkips(p, row, now, subId);
        return false, count;
      }
      var candidate := Sheets.RowCandidate(subId, row, now);
      if candidate.None? {
        Sheets.ImportRowRaises(p, row, now);
        return true, count;
      }
      Sheets.ImportRowAdds(p, row, now, subId, candidate.value);
      roles := roles[rid := role.(candidates := role.candidates + [candidate.value])];
      sheetLastIds := sheetLastIds + {subId};
      return false, count + 1;
    }

    /**
     * The row loop of `_import_from_sheet` on role `rid`: the store ends as `Sheets.ImportRows`
     * says, and `failed` tells whether a row raised.
     */
    method ImportRowsInto(rid: string, rows: seq<Sheets.Row>, now: string) returns (failed: bool, added: nat)
      requires rid in roles
      modifies this
      ensures roleOrder == old(roleOrder)
      ensures
        var p := Sheets.ImportRows(Sheets.Progress(old(roles)[rid].candidates, old(sheetLastIds), 0, false), rows, now);
        && roles == old(roles)[rid := old(roles)[rid].(candidates := p.candidates)]
        && sheetLastIds == p.seen
        && failed == p.failed
        && added == p.added
    {
      ghost var base := roles;
      ghost var start := Sheets.Progress(roles[rid].candidates, sheetLastIds, 0, false);
      added := 0;
      failed := false;
      var i := 0;
      ghost var p := start;
      while i < |rows|
        invariant 0 <= i <= |rows|
        invariant roleOrder == old(roleOrder) && rid in roles && rid in base
        invariant p == Sheets.ImportRows(start, rows[..i], now)
        invariant p == Sheets.Progress(roles[rid].candidates, sheetLastIds, added, false)
        invariant roles == base[rid := base[rid].(candidates := roles[rid].candidates)]
      {
        Sheets.ImportRowsStep(start, rows, i, now);
        p := Sheets.ImportRow(p, rows[i], now);
        var raised;
        ghost var before := roles;
        raised, added := ImportOneRow(rid, rows[i], now, added);
        SetCandidatesTwice(base, rid, before[rid].candidates, roles[rid].candidates);
        if raised {
          Sheets.ImportFailureSticks(start, rows, i + 1, now);
          failed := true;
          return;
        }
        i := i + 1;
      }
      assert rows[..i] == rows;
    }

    /**
     * `_import_from_sheet`, with the CSV download passed in as `fetch` (`None` for a failed
     * request). Rows are imported into the target role as `Sheets.ImportRows` describes; the
     * returned count is the number of candidates added, or 0 when a row raised part-way (the
     * candidates added before it stay).
     */
    method ImportFromSheet(targetRoleId: string, sheetUrl: string, fetch: string -> Option<seq<Sheets.Row>>, now: string)
      returns (count: nat)
      requires Valid()
      modifies this
      ensures Valid()
      ensures roleOrder == old(roleOrder)
      ensures
        var url := Sheets.ConvertSheetUrl(sheetUrl);
        var target := SheetTarget(targetRoleId, old(roleOrder));
        if url == [] || fetch(url).None? || target.None? || target.value !in old(roles) then
          count == 0 && roles == old(roles) && sheetLastIds == old(sheetLastIds)
        else
          var rid := target.value;
          var p := Sheets.ImportRows(Sheets.Progress(old(roles)[rid].candidates, old(sheetLastIds), 0, false), fetch(url).value, now);
          && roles == old(roles)[rid := old(roles)[rid].(candidates := p.candidates)]
          && sheetLastIds == p.seen
          && count == (if p.failed then 0 else p.added)
    {
      var url := Sheets.ConvertSheetUrl(sheetUrl);
      if url == [] {
        return 0;
      }
      var fetched := fetch(url);
      if fetched.None? {
        return 0;
      }
      var target := SheetTarget(targetRoleId, roleOrder);
      if target.None? || target.value !in roles {
        return 0;
      }
      var rid := target.value;
      ghost var start := Sheets.Progress(roles[rid].candidates, sheetLastIds, 0, false);
      Sheets.ImportRowsKeepsInvariant(start, fetched.value, now);
      RoleKeepsValid(roles[rid], Sheets.ImportRows(start, fetched.value, now).candidates);
      ReplaceRoleKeepsValid(roleOrder, roles, rid, roles[rid].(candidates := Sheets.ImportRows(start, fetched.value, now).candidates));
      var failed, added := ImportRowsInto(rid, fetched.value, now);
      count := if failed then 0 else added;
    }

    /** `analyze_role_candidates`: the candidates to analyse, or `None` when the role is missing. */
    method AnalyzeRoleCandidates(roleId: string) returns (r: Option<seq<string>>)
      ensures r.None? <==> roleId !in roles
      ensures r.Some? ==> r.value == Unanalyzed(roles[roleId].candidates)
    {
      if roleId !in roles {
        return None;
      }
      return Some(Unanalyzed(roles[roleId].candidates));
    }
  }
}
