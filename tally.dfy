/**
 * Turning the `fields` list of a Tally form submission into a candidate record: each field is
 * classified by its lower-cased label (and type) and its value copied into the candidate.
 */
module Tally {
  import opened Wrappers
  import opened Text
  import opened Json
  import opened DevRecords

  /** Where a field's value goes. */
  datatype FieldKind =
    | NameField | PhoneField | EmailField | ResumeField | GithubField | LinkedinField | CtcField
    | OtherField

  /** The rule each kind's field satisfies, on the lower-cased label and the field's type. */
  predicate Matches(k: FieldKind, fieldLabel: string, fieldType: Json) {
    match k
    case NameField => Contains(fieldLabel, "name") && !Contains(fieldLabel, "user")
    case PhoneField => Contains(fieldLabel, "number") || Contains(fieldLabel, "phone")
    case EmailField => Contains(fieldLabel, "email")
    case ResumeField => Contains(fieldLabel, "resume") || fieldType == JStr("FILE_UPLOAD")
    case GithubField => Contains(fieldLabel, "github")
    case LinkedinField => Contains(fieldLabel, "linkedin")
    case CtcField => Contains(fieldLabel, "ctc") || Contains(fieldLabel, "salary")
    case OtherField => true
  }

  /** The order in which the rules are tried. */
  function Precedence(k: FieldKind): nat {
    match k
    case NameField => 0
    case PhoneField => 1
    case EmailField => 2
    case ResumeField => 3
    case GithubField => 4
    case LinkedinField => 5
    case CtcField => 6
    case OtherField => 7
  }

  /** The kind of a field: the first rule, in precedence order, that its label satisfies. */
  function Classify(fieldLabel: string, fieldType: Json): (k: FieldKind)
    ensures Matches(k, fieldLabel, fieldType)
    ensures forall k' :: Precedence(k') < Precedence(k) ==> !Matches(k', fieldLabel, fieldType)
  {
    if Matches(NameField, fieldLabel, fieldType) then NameField
    else if Matches(PhoneField, fieldLabel, fieldType) then PhoneField
    else if Matches(EmailField, fieldLabel, fieldType) then EmailField
    else if Matches(ResumeField, fieldLabel, fieldType) then ResumeField
    else if Matches(GithubField, fieldLabel, fieldType) then GithubField
    else if Matches(LinkedinField, fieldLabel, fieldType) then LinkedinField
    else if Matches(CtcField, fieldLabel, fieldType) then CtcField
    else OtherField
  }

  /**
   * The resume URL a resume field yields: the "url" of the first upload when the value is a
   * non-empty list (`None` when that first element is not a dict), the value itself when it is
   * a string, otherwise the current URL unchanged.
   */
  function ResumeValue(value: Json, current: Json): (r: Option<Json>)
    ensures value.JStr? ==> r == Some(value)
    ensures !value.JStr? && !(value.JArr? && value.items != []) ==> r == Some(current)
    ensures value.JArr? && value.items != [] ==>
      r == (if value.items[0].JObj? then Some(Lookup(value.items[0].members, "url").GetOr(JStr(""))) else None)
  {
    if value.JArr? && |value.items| > 0 then
      Get(value.items[0], "url", JStr(""))
    else if value.JStr? then Some(value)
    else Some(current)
  }

  /** One field applied to the candidate; `None` when the field is not a dict or its label not a string. */
  function ApplyField(c: Candidate, field: Json): (r: Option<Candidate>)
    ensures r.Some? ==> field.JObj?
    ensures r.Some? ==>
              && r.value.submissionId == c.submissionId && r.value.status == c.status
              && r.value.submittedAt == c.submittedAt && r.value.evaluation == c.evaluation
              && r.value.githubAnalysis == c.githubAnalysis && r.value.resumeAnalysis == c.resumeAnalysis
  {
    match Get(field, "label", JStr(""))
    case None => None
    case Some(fieldLabel) =>
      if !fieldLabel.JStr? then None
      else
        var value := Get(field, "value", JStr("")).value;
        var fieldType := Get(field, "type", JStr("")).value;
        match Classify(Lower(fieldLabel.s), fieldType)
        case NameField => Some(c.(name := value))
        case PhoneField => Some(c.(phone := value))
        case EmailField => Some(c.(email := value))
        case ResumeField =>
          (match ResumeValue(value, c.resumeUrl)
           case None => None
           case Some(url) => Some(c.(resumeUrl := url)))
        case GithubField => Some(c.(githubUsername := value))
        case LinkedinField => Some(c.(linkedin := value))
        case CtcField => Some(c.(currentCtc := value))
        case OtherField => Some(c)
  }

  /** The fields applied in order; `None` as soon as one of them raises. */
  function ApplyFields(c: Candidate, fields: seq<Json>): Option<Candidate>
    decreases |fields|
  {
    if fields == [] then Some(c)
    else
      match ApplyFields(c, fields[..|fields| - 1])
      case None => None
      case Some(c') => ApplyField(c', fields[|fields| - 1])
  }

  /**
   * `_parse_tally_fields`: a fresh candidate with the fields applied in order. `None` stands for
   * the exception a malformed field raises.
   */
  method ParseTallyFields(fields: seq<Json>, submissionId: string, now: string)
    returns (r: Option<Candidate>)
    ensures r == ApplyFields(NewCandidate(submissionId, JStr(now)), fields)
  {
    var candidate := NewCandidate(submissionId, JStr(now));
    var i := 0;
    while i < |fields|
      invariant 0 <= i <= |fields|
      invariant ApplyFields(NewCandidate(submissionId, JStr(now)), fields[..i]) == Some(candidate)
    {
      assert fields[..i + 1][..i] == fields[..i];
      var next := ApplyField(candidate, fields[i]);
      if next.None? {
        assert fields[..i + 1][i] == fields[i];
        ParseFailureSticks(NewCandidate(submissionId, JStr(now)), fields, i + 1);
        return None;
      }
      candidate := next.value;
      i := i + 1;
    }
    assert fields[..i] == fields;
    return Some(candidate);
  }

  /** Once a field has raised, the whole parse has. */
  lemma {:induction false} ParseFailureSticks(c: Candidate, fields: seq<Json>, n: nat)
    requires n <= |fields| && ApplyFields(c, fields[..n]).None?
    ensures ApplyFields(c, fields).None?
    decreases |fields| - n
  {
    if n < |fields| {
      assert fields[..n + 1][..n] == fields[..n];
      ParseFailureSticks(c, fields, n + 1);
    } else {
      assert fields[..n] == fields;
    }
  }

  /**
   * Parsing never touches the id, the status, the timestamp or the analyses: a parsed candidate
   * is "waitlisted" with null analyses.
   */
  lemma {:induction false} ParseKeepsBookkeeping(c: Candidate, fields: seq<Json>)
    requires ApplyFields(c, fields).Some?
    ensures var p := ApplyFields(c, fields).value;
      p.submissionId == c.submissionId && p.status == c.status && p.submittedAt == c.submittedAt
      && p.evaluation == c.evaluation && p.githubAnalysis == c.githubAnalysis
      && p.resumeAnalysis == c.resumeAnalysis
    decreases |fields|
  {
    if fields != [] {
      ParseKeepsBookkeeping(c, fields[..|fields| - 1]);
    }
  }

  lemma ParsedCandidateIsFresh(submissionId: string, now: string, fields: seq<Json>)
    requires ApplyFields(NewCandidate(submissionId, JStr(now)), fields).Some?
    ensures var p := ApplyFields(NewCandidate(submissionId, JStr(now)), fields).value;
      p.submissionId == submissionId && p.status == "waitlisted" && p.evaluation == JNull
      && p.githubAnalysis == JNull && p.resumeAnalysis == JNull
  {
    ParseKeepsBookkeeping(NewCandidate(submissionId, JStr(now)), fields);
  }

  /**
   * A later name field overwrites whatever an earlier one wrote: the name is the value of the
   * last field classified as a name.
   */
  lemma LastNameFieldWins(c: Candidate, fields: seq<Json>, field: Json, fieldLabel: string)
    requires ApplyFields(c, fields).Some?
    requires field.JObj? && Lookup(field.members, "label") == Some(JStr(fieldLabel))
    requires Classify(Lower(fieldLabel), Get(field, "type", JStr("")).value) == NameField
    ensures ApplyFields(c, fields + [field]).Some?
    ensures ApplyFields(c, fields + [field]).value.name == Get(field, "value", JStr("")).value
  {
    assert (fields + [field])[..|fields|] == fields;
  }

  /** A field that is not a dict, or whose label is present but not text, fails the whole parse. */
  lemma BadLabelFails(c: Candidate, fields: seq<Json>, field: Json)
    requires !field.JObj? || (HasKey(field, "label") && !Lookup(field.members, "label").value.JStr?)
    ensures ApplyFields(c, fields + [field]).None?
  {
    assert (fields + [field])[..|fields|] == fields;
  }
}
