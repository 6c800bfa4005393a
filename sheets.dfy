/**
 * Google Sheets intake: rewriting a sheet link to its CSV export link, and the rule by which
 * rows of the exported CSV become candidates of a role.
 */
module Sheets {
  import opened Wrappers
  import opened Text
  import opened Json
  import opened DevRecords

  const SheetsPrefix: string := "https://docs.google.com/spreadsheets/d/"
  const CsvExport: string := "export?format=csv"
  const CsvPublished: string := "pub?output=csv"

  /** The longest prefix of `s` without a '/' (what `[^/]+` matches greedily). */
  function SheetId(s: string): (r: string)
    ensures |r| <= |s| && r == s[..|r|] && '/' !in r
    ensures |r| < |s| ==> s[|r|] == '/'
  {
    if s == [] || s[0] == '/' then [] else [s[0]] + SheetId(s[1..])
  }

  /** The id captured from a sheet link, when the link is one. */
  function LinkId(url: string): (r: Option<string>)
    ensures r.Some? ==> StartsWith(url, SheetsPrefix + r.value) && r.value != [] && '/' !in r.value
  {
    if StartsWith(url, SheetsPrefix) && SheetId(url[|SheetsPrefix|..]) != [] then
      var id := SheetId(url[|SheetsPrefix|..]);
      assert url[..|SheetsPrefix + id|] == SheetsPrefix + id;
      Some(id)
    else None
  }

  /** The export link of the sheet with id `id`. */
  function ExportLink(id: string): string {
    SheetsPrefix + id + "/" + CsvExport
  }

  /**
   * `_convert_sheet_url`: an empty link and a link that already asks for CSV are kept; a sheet
   * link becomes the export link of the same sheet; anything else is kept.
   */
  function ConvertSheetUrl(url: string): (r: string)
    ensures url == [] ==> r == url
    ensures Contains(url, CsvExport) || Contains(url, CsvPublished) ==> r == url
    ensures r != url ==> LinkId(url).Some? && r == ExportLink(LinkId(url).value)
    ensures url != [] && !Contains(url, CsvExport) && !Contains(url, CsvPublished) && LinkId(url).Some?
      ==> r == ExportLink(LinkId(url).value)
  {
    if url == [] then url
    else if Contains(url, CsvExport) || Contains(url, CsvPublished) then url
    else
      match LinkId(url)
      case Some(id) => ExportLink(id)
      case None => url
  }

  /** Converting twice is converting once: an export link already asks for CSV. */
  lemma ConvertSheetUrlIdempotent(url: string)
    ensures ConvertSheetUrl(ConvertSheetUrl(url)) == ConvertSheetUrl(url)
  {
    var r := ConvertSheetUrl(url);
    if r != url {
      ContainsSuffix(SheetsPrefix + LinkId(url).value + "/", CsvExport);
    }
  }

  /** The export link names the same sheet: reading the id back from it gives the original id. */
  lemma ExportLinkKeepsId(id: string)
    requires id != [] && '/' !in id
    ensures LinkId(ExportLink(id)) == Some(id)
  {
    var link := ExportLink(id);
    var rest := id + ("/" + CsvExport);
    assert link == SheetsPrefix + rest;
    assert link[..|SheetsPrefix|] == SheetsPrefix;
    assert link[|SheetsPrefix|..] == rest;
    SheetIdOfPrefix(id, "/" + CsvExport);
    assert StartsWith(link, SheetsPrefix);
  }

  lemma {:induction false} SheetIdOfPrefix(id: string, rest: string)
    requires '/' !in id && rest != [] && rest[0] == '/'
    ensures SheetId(id + rest) == id
  {
    if id == [] {
      assert id + rest == rest;
    } else {
      assert (id + rest)[1..] == id[1..] + rest;
      SheetIdOfPrefix(id[1..], rest);
    }
  }

  // ---------------------------------------------------------------------------------------
  // Rows of the exported CSV

  /**
   * A row of `csv.DictReader`: column name to cell. A cell is `None` when the row was too short
   * to fill that column (the reader's `restval`).
   */
  type Row = map<string, Option<string>>

  /** `row.get(column, "").strip()`; `None` when the cell is missing and `.strip()` raises. */
  function StrippedCell(row: Row, column: string): (r: Option<string>)
    ensures column !in row ==> r == Some("")
  {
    if column !in row then Some("")
    else
      match row[column]
      case None => None
      case Some(s) => Some(Strip(s))
  }

  /** The candidate a row with submission id `id` becomes; `None` when a stripped cell raises. */
  function RowCandidate(id: string, row: Row, now: string): (r: Option<Candidate>)
    ensures r.Some? ==> r.value.submissionId == id && r.value.status == "waitlisted"
    ensures r.Some? ==> r.value.evaluation == JNull && r.value.githubAnalysis == JNull
  {
    var name := StrippedCell(row, "What is your full name?");
    var phone := StrippedCell(row, "Your number?");
    var email := StrippedCell(row, "Your email");
    var resume := StrippedCell(row, "Updated resume");
    var github := StrippedCell(row, "Your github username");
    var linkedin := StrippedCell(row, "Your linkedin");
    var ctc := StrippedCell(row, "Current CTC");
    if name.None? || phone.None? || email.None? || resume.None? || github.None? || linkedin.None?
       || ctc.None?
    then None
    else
      var submittedAt :=
        if "Submitted at" !in row then JStr(now)
        else match row["Submitted at"] case None => JNull case Some(s) => JStr(s);
      Some(Candidate(id, JStr(name.value), JStr(phone.value), JStr(email.value), JStr(resume.value),
        JStr(github.value), JStr(linkedin.value), JStr(ctc.value), "waitlisted", submittedAt,
        JNull, JNull, JNull))
  }

  /**
   * Where the import stands: the role's candidates, the ids seen so far, how many were added,
   * and whether a row raised (which ends the import).
   */
  datatype Progress = Progress(candidates: seq<Candidate>, seen: set<string>, added: nat, failed: bool)

  /**
   * One row: a blank id, an id already in the role and an id already seen are skipped;
   * otherwise the candidate is added and its id marked seen.
   */
  function ImportRow(p: Progress, row: Row, now: string): (r: Progress)
  {
    if p.failed then p
    else
      match StrippedCell(row, "Submission ID")
      case None => p.(failed := true)
      case Some(id) =>
        if id == [] || HasId(p.candidates, id) || id in p.seen then p
        else
          match RowCandidate(id, row, now)
          case None => p.(failed := true)
          case Some(c) => Progress(p.candidates + [c], p.seen + {id}, p.added + 1, false)
  }

  /** A row without a readable submission id, or whose candidate cannot be read, raises. */
  lemma ImportRowRaises(p: Progress, row: Row, now: string)
    requires !p.failed
    requires StrippedCell(row, "Submission ID").None?
      || var id := StrippedCell(row, "Submission ID").value;
         id != [] && !HasId(p.candidates, id) && id !in p.seen && RowCandidate(id, row, now).None?
    ensures ImportRow(p, row, now) == p.(failed := true)
  {
  }

  /** A row with an empty, known or already seen submission id changes nothing. */
  lemma ImportRowSkips(p: Progress, row: Row, now: string, id: string)
    requires !p.failed && StrippedCell(row, "Submission ID") == Some(id)
    requires id == [] || HasId(p.candidates, id) || id in p.seen
    ensures ImportRow(p, row, now) == p
  {
  }

  /** A row with a new submission id and a readable candidate adds that candidate. */
  lemma ImportRowAdds(p: Progress, row: Row, now: string, id: string, c: Candidate)
    requires !p.failed && StrippedCell(row, "Submission ID") == Some(id)
    requires id != [] && !HasId(p.candidates, id) && id !in p.seen && RowCandidate(id, row, now) == Some(c)
    ensures ImportRow(p, row, now) == Progress(p.candidates + [c], p.seen + {id}, p.added + 1, false)
  {
  }

  /** The rows imported in order. */
  function ImportRows(p: Progress, rows: seq<Row>, now: string): Progress
    decreases |rows|
  {
    if rows == [] then p else ImportRow(ImportRows(p, rows[..|rows| - 1], now), rows[|rows| - 1], now)
  }

  /** Importing one more row is one more `ImportRow`. */
  lemma ImportRowsStep(p: Progress, rows: seq<Row>, i: nat, now: string)
    requires i < |rows|
    ensures ImportRows(p, rows[..i + 1], now) == ImportRow(ImportRows(p, rows[..i], now), rows[i], now)
  {
    assert rows[..i + 1][..i] == rows[..i];
  }

  /** After a row has raised, the later rows change nothing. */
  lemma {:induction false} ImportFailureSticks(p: Progress, rows: seq<Row>, n: nat, now: string)
    requires n <= |rows| && ImportRows(p, rows[..n], now).failed
    ensures ImportRows(p, rows, now) == ImportRows(p, rows[..n], now)
    decreases |rows| - n
  {
    if n < |rows| {
      assert rows[..n + 1][..n] == rows[..n];
      ImportFailureSticks(p, rows, n + 1, now);
    } else {
      assert rows[..n] == rows;
    }
  }

  /** What the import keeps true of a role's candidates. */
  predicate ImportInvariant(start: Progress, p: Progress) {
    && p.added >= start.added
    && |p.candidates| == |start.candidates| + (p.added - start.added)
    && p.candidates[..|start.candidates|] == start.candidates
    && start.seen <= p.seen
    && (forall k :: |start.candidates| <= k < |p.candidates| ==>
          && p.candidates[k].submissionId != []
          && p.candidates[k].submissionId in p.seen
          && p.candidates[k].submissionId !in start.seen
          && p.candidates[k].status == "waitlisted")
    && (DistinctIds(start.candidates) ==> DistinctIds(p.candidates))
    && SelectedCount(p.candidates) == SelectedCount(start.candidates)
  }

  /**
   * The import only appends: every added candidate has a non-blank id that was not seen before
   * and is now marked seen, ids stay distinct, the count of added candidates is exactly how many
   * were appended, and no one is added as selected.
   */
  lemma {:induction false} ImportRowsKeepsInvariant(start: Progress, rows: seq<Row>, now: string)
    requires !start.failed
    ensures ImportInvariant(start, ImportRows(start, rows, now))
    decreases |rows|
  {
    if rows != [] {
      var before := ImportRows(start, rows[..|rows| - 1], now);
      ImportRowsKeepsInvariant(start, rows[..|rows| - 1], now);
      ImportRowKeeps(start, before, rows[|rows| - 1], now);
    }
  }

  lemma ImportRowKeeps(start: Progress, p: Progress, row: Row, now: string)
    requires ImportInvariant(start, p)
    ensures ImportInvariant(start, ImportRow(p, row, now))
  {
    if !p.failed && StrippedCell(row, "Submission ID").Some? {
      var id := StrippedCell(row, "Submission ID").value;
      if id != [] && !HasId(p.candidates, id) && id !in p.seen && RowCandidate(id, row, now).Some? {
        AppendKeeps(start, p, RowCandidate(id, row, now).value);
      }
    }
  }

  /** Appending a waitlisted candidate whose id is new and unseen keeps the invariant. */
  lemma AppendKeeps(start: Progress, p: Progress, c: Candidate)
    requires ImportInvariant(start, p)
    requires c.submissionId != [] && !HasId(p.candidates, c.submissionId) && c.submissionId !in p.seen
    requires c.status == "waitlisted"
    ensures ImportInvariant(start, Progress(p.candidates + [c], p.seen + {c.submissionId}, p.added + 1, false))
  {
    var q := Progress(p.candidates + [c], p.seen + {c.submissionId}, p.added + 1, false);
    var n := |start.candidates|;
    assert q.candidates[..n] == p.candidates[..n];
    SelectedCountAppend(p.candidates, c);
    if DistinctIds(start.candidates) {
      DistinctIdsAppend(p.candidates, c);
    }
    forall k | n <= k < |q.candidates|
      ensures q.candidates[k].submissionId != [] && q.candidates[k].submissionId in q.seen
      ensures q.candidates[k].submissionId !in start.seen && q.candidates[k].status == "waitlisted"
    {
      if k < |p.candidates| {
        assert q.candidates[k] == p.candidates[k];
      }
    }
  }

  /** An id already seen is never imported again, even into another role. */
  lemma SeenRowSkipped(p: Progress, row: Row, now: string)
    requires !p.failed
    requires StrippedCell(row, "Submission ID").Some? && StrippedCell(row, "Submission ID").value in p.seen
    ensures ImportRow(p, row, now) == p
  {
  }
}
