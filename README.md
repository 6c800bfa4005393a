# TalentLens core, modelled in Dafny

TalentLens finds designers on Dribbble and developer candidates through Tally forms and Google
Sheets, and scores both with an LLM. This project models the deterministic core of its Python
backend and of its older standalone Dribbble agent, and proves what that core promises. Network
replies, LLM text, regular-expression matches and `json.loads` are parameters of the model.

- **Developer hiring store** (`backend/dev_module.py`): class `DevModule.DevStore`. It holds the
  roles in creation order, each role's candidates, and the set of sheet ids already imported.
  It models:
  - listing, creating, reading (ranked), and deleting roles;
  - the manual status update with its slot limit, and the automatic status set from a score;
  - the Tally webhook: field classification, routing, duplicate refusal and appending;
  - the Google Sheets link rewrite and the CSV row import;
  - the choice of candidates to analyse.
- **Helper modules for the store**:
  - `DevRecords`: candidates, roles, selected counts and the status rule.
  - `Tally`: form fields.
  - `Sheets`: sheet links and rows.
  - `Sorting`: the stable descending sort.
- **Scan server** (`backend/server.py`), module `Server`:
  - the `LogCapture` class, a line buffer that replaces stdout;
  - the message order of a pipeline run;
  - the server-sent-event frames, checked against an event-stream decoder (module
    `EventStream`) written after sections 9.2.5 and 9.2.6 of the WHATWG HTML Living Standard;
  - the scan keyword;
  - the export endpoint.
- **Dribbble scraper** (`backend/scraper.py`), module `Scraper`:
  - the reader-service retry loop;
  - the search page: eligible designers, de-duplication, pairing shots with designers;
  - profile shots, image file names, downloads, the shot merge and the designer record.
- **Analyzers**:
  - `Analyzer` (`backend/analyzer.py`): MIME types, the assessment and its fallback, link
    flattening, profile assembly.
  - `DevAnalyzer` (`backend/dev_analyzer.py`): environment cleaning, the GitHub summary
    statistics, the evaluation fallback and the analysis record.
  - `Gemini`: the retry loop both analyzers share.
- **JSON recovery**, module `Recovery`: the staged cascades that recover JSON from LLM text. The
  three backend files use three different variants.
- **Legacy agent** (`dribble_scraper_agent.py`), module `LegacyAgent`:
  - keyword generation;
  - portfolio conversion;
  - the per-keyword selection loop;
  - work-image naming and the works cap of profile processing.
- **Shared helpers**:
  - `Json`: JSON values with ordered members, as Python dicts keep insertion order, plus
    `dict.get` and `json.dumps`.
  - `Text`: `str.strip` with Python's whitespace set, `find`, slicing, ASCII lower-casing, line
    splitting.
  - `Wrappers`: `Option`.

A Python exception that the source does not catch, or catches only to give up, is modelled as
`None`, or as a `Crashed`/`crashed` outcome. Loops and in-place updates in the source are Dafny
methods with loops and `modifies` clauses. Each is proved against a function that states the
same computation, and the properties are proved about those functions.

## Model

| member | source | states |
|---|---|---|
| DevRecords.NewCandidate | backend/dev_module.py:269-283 | a fresh candidate has the submission id, empty contact fields, status "waitlisted" and null analyses |
| DevRecords.SelectedCount | backend/dev_module.py:89-90 | the count of candidates whose status is "selected" is at most the number of candidates |
| DevRecords.FindCandidate | backend/dev_module.py:175-177 | the candidate lookup finds a position exactly when some candidate has the id, and that candidate has it |
| DevRecords.SelectedCountUpdate | backend/dev_module.py:186 | replacing one candidate changes the selected count by that candidate's own contribution only |
| DevRecords.SelectedCountAppend | backend/dev_module.py:252 | appending a candidate adds its contribution to the selected count |
| DevRecords.DistinctIdsAppend | backend/dev_module.py:247-252 | appending a candidate whose submission id is new keeps the ids distinct |
| DevRecords.SelectedOthersExcludesOne | backend/dev_module.py:333-335 | when ids are distinct, excluding by submission id leaves out exactly the one candidate |
| DevRecords.SelectedOthersNone | backend/dev_module.py:181-183 | a test on an id no candidate has excludes nobody, so the candidate being selected is counted too |
| DevRecords.ScoreOf | backend/dev_module.py:329 | a falsy evaluation, or one without a score, scores 50; an integer or boolean score is that number; a truthy evaluation that is not a dict, or a text, null, list or dict score, raises (a float score too, see Left out) |
| DevRecords.StatusForScore | backend/dev_module.py:330-341 | 71 or more is "selected" unless the other selected candidates fill the positions (then "waitlisted"); 40 or less is "rejected"; anything else is "waitlisted" |
| DevRecords.RankKey | backend/dev_module.py:136-139 | the ranking key is the evaluation's score, or 0 without one; an evaluation that is not a dict (null before the analysis) has no key |
| Tally.Classify | backend/dev_module.py:290-306 | a field gets the first kind in the fixed precedence whose rule its lower-cased label meets: name without "user", number/phone, email, resume/FILE_UPLOAD, github, linkedin, ctc/salary |
| Tally.ResumeValue | backend/dev_module.py:296-300 | a non-empty list gives its first upload's "url", raising when that upload is not a dict; a string is kept; anything else leaves the URL unchanged |
| Tally.ApplyField | backend/dev_module.py:285-306 | a field fails exactly when it is not a dict or its label is not text; otherwise it writes only the slot its kind names |
| Tally.ParseTallyFields | backend/dev_module.py:267-308 | the parse loop yields the fresh candidate with every field applied in order, or the failure of the first malformed field |
| Tally.ParseFailureSticks | backend/dev_module.py:285-307 | once a field has raised, the whole parse has raised |
| Tally.ParseKeepsBookkeeping | backend/dev_module.py:269-308 | parsing never changes the id, the status, the timestamp or the analyses |
| Tally.ParsedCandidateIsFresh | backend/dev_module.py:268-283 | a parsed candidate is "waitlisted", has null analyses and carries the submission id |
| Tally.LastNameFieldWins | backend/dev_module.py:290-291 | a later name field overwrites earlier ones |
| Tally.BadLabelFails | backend/dev_module.py:286 | a field that is not a dict, or whose label is not text, fails the whole parse |
| Sheets.SheetId | backend/dev_module.py:362 | the captured id is the longest prefix without '/' |
| Sheets.LinkId | backend/dev_module.py:362 | an id is captured exactly when the link starts with the sheet prefix and a non-empty id follows |
| Sheets.ConvertSheetUrl | backend/dev_module.py:353-368 | empty links and links already asking for CSV are kept; a sheet link becomes the export link of the same id; anything else is kept |
| Sheets.ConvertSheetUrlIdempotent | backend/dev_module.py:353-368 | converting twice gives the same link as converting once |
| Sheets.ExportLinkKeepsId | backend/dev_module.py:362-365 | reading the id back from the export link gives the original id |
| Sheets.StrippedCell | backend/dev_module.py:409-415 | a cell reads as its stripped text; a missing cell raises |
| Sheets.RowCandidate | backend/dev_module.py:407-421 | a row becomes a waitlisted candidate with its stripped cells and null analyses, or fails when a cell is missing |
| Sheets.ImportFailureSticks | backend/dev_module.py:441-443 | after a row raises, the later rows change nothing |
| Sheets.ImportRowsKeepsInvariant | backend/dev_module.py:383-426 | the import only appends; each added candidate has a non-blank, unseen id that is then marked seen; ids stay distinct; the count equals the candidates appended; no one is added as selected |
| Sheets.ImportRowKeeps | backend/dev_module.py:384-426 | one row keeps the import invariant |
| Sheets.AppendKeeps | backend/dev_module.py:423-426 | appending a new, unseen, waitlisted candidate and marking it seen keeps the invariant |
| Sheets.SeenRowSkipped | backend/dev_module.py:404-405 | an id already seen is never imported again, even into another role |
| Sorting.SortDesc | backend/dev_module.py:136-139 | sorting keeps the length and the multiset of elements |
| Sorting.SortDescSorted | backend/dev_module.py:136-139 | the sorted list is in descending key order |
| Sorting.SortDescStable | backend/dev_module.py:136-139 | the elements that share a key keep their original order (stable sort) |
| DevModule.Without | backend/dev_module.py:161 | deleting a role id removes exactly that id and keeps the others in order |
| DevModule.FirstWithForm | backend/dev_module.py:214-217 | the first role whose form id equals the submission's, if any |
| DevModule.FirstUnset | backend/dev_module.py:221-224 | the first role with a falsy form id, if any |
| DevModule.RouteRole | backend/dev_module.py:213-229 | routing finds a role exactly when there are roles, and that role is in the store |
| DevModule.RouteRolePrefers | backend/dev_module.py:213-229 | a form-id match wins; failing that, a role without form id; failing that, the first role |
| DevModule.SheetTarget | backend/dev_module.py:389-399 | "__global__" means the first role; otherwise the given id, which must name a role |
| DevModule.Unanalyzed | backend/dev_module.py:482-485 | exactly the candidates with a falsy evaluation, in order |
| DevModule.Analyzed | backend/dev_module.py:324-341 | the stored candidate keeps its id and gets the three results, with the status its score gives beside the other selected candidates |
| DevModule.AnalyzedKeepsValid | backend/dev_module.py:328-341 | the automatic status keeps selected candidates within the positions |
| DevModule.ReplaceCandidateKeepsValid | backend/dev_module.py:186 | replacing a candidate keeps a role valid when a selected replacement still fits beside the others |
| DevModule.AppendCandidateKeepsValid | backend/dev_module.py:252 | appending a new, non-selected candidate keeps a role valid |
| DevModule.AppendIsAddedOne | backend/dev_module.py:226-252 | the webhook adds exactly one candidate to the routed role (created empty when there were no roles), and nothing else changes |
| DevModule.DevStore.constructor | backend/dev_module.py:52-63 | the store starts with no roles and no seen sheet ids |
| DevModule.DevStore.ListRoles | backend/dev_module.py:84-103 | one summary per role in creation order, with its candidate total and selected count |
| DevModule.DevStore.CreateRole | backend/dev_module.py:106-122 | the role is stored under the new id with no candidates; other roles are unchanged |
| DevModule.DevStore.GetRole | backend/dev_module.py:125-154 | not found for a missing role; an error exactly when some candidate's evaluation is not a dict, or, with two or more candidates (the only case where keys are compared), some score is not an integer or boolean (see Left out); otherwise the candidates ranked by score, highest first, ties in insertion order, with the selected count |
| DevModule.DevStore.DeleteRole | backend/dev_module.py:157-164 | the role is removed and its name returned; a missing role changes nothing |
| DevModule.DevStore.UpdateCandidateStatus | backend/dev_module.py:169-188 | a missing role or candidate changes nothing; "selected" is refused when the selected count, the candidate itself included, reaches the positions; otherwise only that candidate's status changes; the slot limit is kept |
| DevModule.DevStore.FindByFormId | backend/dev_module.py:214-217 | the first routing loop returns the first role with the submission's form id |
| DevModule.DevStore.FindUnset | backend/dev_module.py:221-224 | the second routing loop returns the first role without a form id |
| DevModule.DevStore.FindRole | backend/dev_module.py:213-229 | the three routing steps together give `RouteRole` |
| DevModule.DevStore.RouteOrCreate | backend/dev_module.py:226-243 | the routed role; with no roles, a new role with 10 positions and the submission's form id |
| DevModule.DevStore.Intake | backend/dev_module.py:212-264 | routing first (a default role is created when there are none); then a list or dict id raises, a string id the routed role holds is a duplicate and changes nothing more, and a string id it does not hold appends exactly the given candidate to that role, answered with the candidate's and the role's names |
| DevModule.DevStore.Admit | backend/dev_module.py:245-264 | on the routed role: a duplicate exactly when the role holds the string id, received exactly when it does not (the candidate appended, nothing else changed), a raise for a list or dict id |
| DevModule.ReadWebhook | backend/dev_module.py:201-210 | a parsed submission carries a waitlisted, unanalysed candidate holding the string submission id |
| DevModule.DevStore.AppendCandidate | backend/dev_module.py:252 | the candidate is appended to that role only |
| DevModule.DevStore.TallyWebhook | backend/dev_module.py:193-264 | a body that is not JSON is refused; data that is not a dict, fields that are not a list or a field that cannot be read raise, and falsy fields are answered "no fields", all without change; otherwise the parsed candidate goes through routing and intake exactly as `Intake` states; the store stays valid |
| DevModule.DevStore.AnalyzeCandidate | backend/dev_module.py:311-348 | a missing role or candidate changes nothing; otherwise the results are stored and the status follows the score without exceeding the positions |
| DevModule.DevStore.ImportOneRow | backend/dev_module.py:384-426 | one pass of the row loop changes the target role's candidates and the seen ids as `Sheets.ImportRow` says |
| DevModule.DevStore.ImportRowsInto | backend/dev_module.py:383-426 | the row loop ends in the state `Sheets.ImportRows` gives |
| DevModule.DevStore.ImportFromSheet | backend/dev_module.py:371-443 | rows are imported into the target role; the count returned is the number added, or 0 when the link is empty, the download fails or a row raises; the store stays valid |
| DevModule.DevStore.AnalyzeRoleCandidates | backend/dev_module.py:475-497 | none for a missing role; otherwise exactly the candidates without an evaluation, in order |
| Server.Logs | backend/server.py:86-88 | one log message per line, in order |
| Server.LogsAppend | backend/server.py:86-88 | the log messages of two line lists concatenate |
| Server.Emitted | backend/server.py:84-85 | every queued line is stripped and not empty, in input order |
| Server.EmittedAppend | backend/server.py:82-88 | what is queued for two line lists is what is queued for each, concatenated |
| Server.TwoWritesAreOne | backend/server.py:81-88 | writing `x` then `y` queues the same lines and leaves the same buffer as writing `x + y` |
| Server.LogCapture.constructor | backend/server.py:73-76 | the capture starts with an empty buffer and nothing queued |
| Server.LogCapture.Write | backend/server.py:78-89 | `write("")` returns 0 and changes nothing; otherwise it returns the text's length, queues the stripped, non-blank complete lines, and leaves a buffer without a line feed |
| Server.LogCapture.TakeLines | backend/server.py:82-88 | the loop takes every complete line off the buffer and queues it as `Emitted` says |
| Server.LogCapture.EmitFirstLine | backend/server.py:83-88 | one turn of the loop removes the first line from the buffer and queues it when it is not blank |
| Server.LogCapture.Flush | backend/server.py:91-96 | a buffer that is not blank is queued stripped and emptied; a blank one is kept |
| Server.RunIsWellFormed | backend/server.py:123-136 | every run queues log lines, then exactly one result or error, then "done" |
| Server.RunPipeline | backend/server.py:101-136 | the queue holds the log lines of everything printed, flushed, then the result or the error, then "done" |
| Server.PrintAll | backend/server.py:113-121 | the pipeline's prints, written chunk by chunk, queue what writing their concatenation queues |
| Server.Frames | backend/server.py:163-175 | one frame per message, in order |
| Server.DoneIndex | backend/server.py:173-175 | the position of the first "done", or the length when there is none |
| Server.UpToDone | backend/server.py:160-175 | the stream reads the messages up to and including the first "done" |
| Server.RunIsReadToTheEnd | backend/server.py:160-175 | a run's only "done" is its last message, so the stream reads the whole run |
| Server.RunSetsLastResults | backend/server.py:166-167 | after a run, the remembered profiles are the run's profiles when it succeeded, and the previous ones when it failed |
| Server.EventOfFramable | backend/server.py:164-174 | every message's event type is a non-empty word and its JSON text has no line break |
| Server.FrameDecodes | backend/server.py:164-174 | a decoder reading one frame's three lines dispatches exactly that event |
| Server.FrameStreamDecodes | backend/server.py:160-175 | a decoder reading a run of frames dispatches their events in order |
| Server.StreamRoundTrip | backend/server.py:158-175 | a client decoding the frames receives one event per message, in order, with the message's type and the JSON text of its payload |
| Server.ScanKeyword | backend/server.py:149 | the first query, or "design" when there is none |
| Server.HeaderRow | backend/server.py:196-199 | the 8 column names in fixed order |
| Server.SkillsCell | backend/server.py:211 | the ", " join of a list of strings (also of a string's characters or a dict's keys); a non-string element raises |
| Server.ExportRow | backend/server.py:200-213 | a row has 8 cells; it raises when the profile or one of its nested records is not a dict, or the skills cannot be joined |
| Server.ExportRowRaises | backend/server.py:200-213 | both directions of the failure condition; username is the 1st cell and score the 5th, matching the header |
| Server.ScanServer.constructor | backend/server.py:66 | there are no results before the first scan |
| Server.ScanServer.StreamEvents | backend/server.py:158-175 | the frames of the messages up to and including the first "done"; the remembered results are those of the last result read |
| Server.ScanServer.ExportResults | backend/server.py:188-221 | 404 exactly when there are no results; for "csv" the failure of a row exactly when some profile's row raises, and otherwise the table of the header and one row per profile, in order; for any other format the profiles |
| EventStream.Dispatch | backend/server.py:164-174 | dispatching at a blank line records the event with the data's last line feed dropped, and clears both buffers |
| EventStream.Field | backend/server.py:164-174 | a field line splits at its first colon, with one leading space of the value dropped |
| Recovery.Fenced | backend/scraper.py:78-91 | the stripped text after the marker, up to the next fence; no value when the marker does not occur |
| Recovery.GreedyObject | backend/scraper.py:92-98 | the span from the first '{' to the last '}' after it |
| Recovery.LazyArray | backend/scraper.py:92-98 | the span from the first '[' to the first ']' after it |
| Recovery.RecoverIsFirstSuccess | backend/scraper.py:72-99 | the value of the first stage that parses; none exactly when every stage fails |
| Recovery.RecoverAppend | backend/scraper.py:72-99 | running two cascades one after the other is running their concatenation |
| Recovery.VariantsAgree | backend/analyzer.py:53-78 | the analyzer's value is the scraper's whenever the analyzer finds one; the developer analyzer lacks the plain-fence stage |
| Recovery.FencedBlock | backend/scraper.py:78-91 | a reply holding one fenced block yields exactly that block, stripped |
| Text.CountBelow | backend/dev_analyzer.py:41 | the attempts of `range(retries)` and the portfolios a query may add below `max_profiles_per_keyword` (dribble_scraper_agent.py:354): none when the bound is not positive, otherwise the bound |
| Gemini.GeminiText | backend/dev_analyzer.py:39-63 | at most `retries` calls; returns the first non-empty reply, else "" after every attempt failed; waits are 3·(k+1) seconds, after every failed attempt but the last |
| Scraper.PyLen | backend/scraper.py:116 | `len` is defined for strings, lists and dicts and raises otherwise |
| Scraper.Accepted | backend/scraper.py:113-122 | an attempt is accepted only with status 200 and truthy content longer than 500 |
| Scraper.JinaFetch | backend/scraper.py:102-127 | at most `retries + 1` attempts; returns the first accepted content, or nothing after all attempts fail; 3-second waits after every failed attempt but the last |
| Scraper.EligibleEntries | backend/scraper.py:161-166 | the kept links are the eligible links of the page, stripped, in order |
| Scraper.EligibleEntriesAreEligible | backend/scraper.py:165 | no excluded name and no "shots…" name is kept, and every eligible link is |
| Scraper.FirstOccurrences | backend/scraper.py:168-178 | the first entry of each username, in order |
| Scraper.FirstOccurrencesDistinct | backend/scraper.py:168-178 | the kept usernames are distinct, and they are all the usernames seen |
| Scraper.FirstOccurrenceKept | backend/scraper.py:172-178 | the entry kept for a username is its first one |
| Scraper.Extend | backend/scraper.py:206-208 | extending a username's list adds the shots to that username only, after its earlier shots |
| Scraper.PairingKeepsShots | backend/scraper.py:187-211 | every shot line's shot is pending or paired with one designer; no excluded page gets shots |
| Scraper.SearchResultFacts | backend/scraper.py:161-216 | at most `num_users` designers, distinct usernames, none excluded or starting with "shots", each linked on the page |
| Scraper.SearchDribbble | backend/scraper.py:132-216 | nothing for a failed fetch; otherwise the first eligible designer of each username, with its paired shots (`[]` when none), cut to `num_users` |
| Scraper.CollectEntries | backend/scraper.py:161-166 | the link loop gives `EligibleEntries` |
| Scraper.Dedupe | backend/scraper.py:168-178 | the de-duplication loop gives `FirstOccurrences` |
| Scraper.PairAll | backend/scraper.py:183-211 | the line loop gives the pairing state machine's result |
| Scraper.ProfileOf | backend/scraper.py:221-270 | the parsed reply when it is a dict, else `{}` |
| Scraper.CleanUrl | backend/scraper.py:295 | everything from the first '?' removed |
| Scraper.ShotTitle | backend/scraper.py:300 | the title cut to 80 characters, "Untitled" when empty |
| Scraper.ProfileShotsFacts | backend/scraper.py:290-302 | the shots have distinct query-less addresses, no avatar, and titles of 1 to 80 characters |
| Scraper.ScrapeDesignerShots | backend/scraper.py:275-305 | nothing for a failed fetch; otherwise the first shot per query-less address, avatars skipped |
| Scraper.CleanTitle | backend/scraper.py:338 | the lower-cased title with every character outside `[a-zA-Z0-9_-]` replaced by '_', cut to the width |
| Scraper.Extension | backend/scraper.py:329-336 | ".png" over ".gif" over ".webp" over ".jpg", by the lower-cased address |
| Scraper.ImageFileNameIsSafe | backend/scraper.py:338-341 | the file name has no '/' and only safe characters, and ends with the chosen extension |
| Scraper.Downloads | backend/scraper.py:323-367 | at most one image per shot; a shot without address, or whose download raised or was under 1000 bytes, is not kept |
| Scraper.DownloadsFacts | backend/scraper.py:323-367 | every kept image comes from one shot, has a download of at least 1000 bytes, and is saved under the designer's folder with that shot's name |
| Scraper.DownloadImages | backend/scraper.py:310-373 | the loop over the first `max_images` shots gives `Downloads` |
| Scraper.NewShots | backend/scraper.py:435-437 | the profile shots whose address is not among the search shots, in order |
| Scraper.MergedShots | backend/scraper.py:422-438 | the search shots first; when fewer than `num_images`, the new profile shots after them |
| Scraper.AppendNewShots | backend/scraper.py:434-437 | the merge loop gives the search shots followed by `NewShots` |
| Scraper.SocialLinks | backend/scraper.py:445-447 | a list of links becomes `{"other": list}`; other values are kept |
| Scraper.DesignerName | backend/scraper.py:451 | the profile name when truthy, else the display name |
| Scraper.ScrapeDesigner | backend/scraper.py:409-472 | one designer's record is `DesignerRecord` |
| Scraper.RecordsAt | backend/scraper.py:408-472 | one record per designer, the k-th from the k-th designer |
| Scraper.RunScraper | backend/scraper.py:400-490 | error metadata and no designers when the search found none; otherwise one record per designer, in order |
| Analyzer.SplitExt | backend/analyzer.py:96 | the extension runs from the last '.' of the last path component, leading dots excluded |
| Analyzer.DetectMimeType | backend/analyzer.py:95-104 | the MIME type of the lower-cased extension, "image/jpeg" by default |
| Analyzer.DetectMimeTypeIgnoresCase | backend/analyzer.py:95-104 | the MIME type does not depend on the case of the path |
| Analyzer.SavedImageMimeType | backend/analyzer.py:95-104 | each of the scraper's four extensions maps to its own MIME type |
| Analyzer.FallbackVerdict | backend/analyzer.py:282-308 | the fallback scores 50 and recommends "CONSIDER" |
| Analyzer.Scored | backend/analyzer.py:270-271 | a dict with "overall_score" is kept; otherwise the rounded rating is appended under that key, and every other key is unchanged |
| Analyzer.Assess | backend/analyzer.py:260-308 | an empty reply, an unparsable reply and a non-dict reply give the fallback; a kept reply is the parsed dict extended only with a score |
| Analyzer.AssessKeepsComplete | backend/analyzer.py:269-273 | a parsed dict with a score and a dict recommendation is returned unchanged; a non-dict recommendation gives the fallback |
| Analyzer.Iterate | backend/analyzer.py:330 | iterating gives a list's items, a string's characters or a dict's keys, and raises otherwise |
| Analyzer.AnalyzeDesigner | backend/analyzer.py:158-308 | raises before the model call only when the designer's fields cannot be read; otherwise the assessment |
| Analyzer.TruthyItems | backend/analyzer.py:332 | the truthy items, in order |
| Analyzer.FlatLinksMembers | backend/analyzer.py:329-334 | a link is flattened exactly when it is a truthy "other" entry or a non-empty string value |
| Analyzer.FlatLinksTruthy | backend/analyzer.py:329-334 | every flattened link is truthy |
| Analyzer.FlattenSocialLinks | backend/analyzer.py:327-334 | only a dict contributes, member by member in order; anything else gives `[]` |
| Analyzer.WorksFacts | backend/analyzer.py:350-362 | one work per shot, each with one image; ids are the indices as text and distinct |
| Analyzer.ProfileFacts | backend/analyzer.py:337-365 | the same flat list appears as "social_links" of the original data and as "social_media_links"; the assessment and one work per shot are included |
| Analyzer.ProfileFor | backend/analyzer.py:320-366 | a designer's profile, or the failure of its analysis |
| Analyzer.Profiles | backend/analyzer.py:319-366 | one profile per designer in input order, or failure when one fails |
| Analyzer.ProfilesFacts | backend/analyzer.py:319-366 | exactly one profile per designer, the k-th from the k-th; the run fails exactly when some designer fails |
| Analyzer.AnalyzeAllDesigners | backend/analyzer.py:311-366 | the designer loop gives `AllProfiles` |
| Analyzer.NoneSticks | backend/analyzer.py:320-366 | once a designer fails, the whole run fails |
| DevAnalyzer.CleanEnv | backend/dev_analyzer.py:25-28 | the result is no longer than the chosen value and neither starts nor ends with a single quote |
| DevAnalyzer.CleanEnvUnwraps | backend/dev_analyzer.py:25-28 | a bare value in matching quotes (or none), with whitespace around, reads back as itself |
| DevAnalyzer.UserOf | backend/dev_analyzer.py:158-165 | a response with "errors", or without a truthy user, gives none |
| DevAnalyzer.KeepMembers | backend/dev_analyzer.py:169 | the filtered list holds exactly the elements the test rejects |
| DevAnalyzer.SumOfKept | backend/dev_analyzer.py:169-170 | summing over the filtered list is summing the kept elements' terms |
| DevAnalyzer.OwnRepos | backend/dev_analyzer.py:169 | the non-fork repositories in order; raises when a repository is not a dict |
| DevAnalyzer.BumpCounts | backend/dev_analyzer.py:177 | bumping raises the count of that language by one and leaves the others alone |
| DevAnalyzer.BumpKeys | backend/dev_analyzer.py:177 | a counted language keeps its place; a new one is appended |
| DevAnalyzer.LanguagesCount | backend/dev_analyzer.py:173-177 | the tally counts each language as often as the own repositories name it, each once, with no zero count |
| DevAnalyzer.CountLanguages | backend/dev_analyzer.py:173-177 | the language loop gives `Languages` |
| DevAnalyzer.LanguagesNoneSticks | backend/dev_analyzer.py:174-177 | once the loop has raised, later repositories do not matter |
| DevAnalyzer.TopLanguages | backend/dev_analyzer.py:178 | at most 8 entries, taken from the tally |
| DevAnalyzer.TopLanguagesRanked | backend/dev_analyzer.py:178 | descending by count; no language left out outranks a kept one; equal counts keep first-seen order |
| DevAnalyzer.MapAll | backend/dev_analyzer.py:182-189 | one value per element, in order, or failure when one fails |
| DevAnalyzer.PinnedRepos | backend/dev_analyzer.py:181-189 | the pinned loop gives one entry per node, or the failure of the first bad node |
| DevAnalyzer.Description | backend/dev_analyzer.py:217 | a falsy description becomes "", a string is cut to 100 characters, and other values raise |
| DevAnalyzer.TopReposFacts | backend/dev_analyzer.py:214-223 | the first five own repositories (all when fewer), each description at most 100 characters |
| DevAnalyzer.RepoStatsFacts | backend/dev_analyzer.py:168-223 | own repositories are exactly the non-forks; stars are their star sum; at most 8 top languages with their true counts; top repositories as above |
| DevAnalyzer.SummaryObjectFacts | backend/dev_analyzer.py:193-224 | the summary stores the own count, star total, top languages and top repositories under their keys |
| DevAnalyzer.GithubSummary | backend/dev_analyzer.py:136-232 | none without a username or token, for a failed request, for errors or a missing user, or when building raises |
| DevAnalyzer.AnalyzeGithub | backend/dev_analyzer.py:136-232 | the loops give `GithubSummary` |
| DevAnalyzer.RepoStatistics | backend/dev_analyzer.py:168-223 | the statistics loops give `RepoStatsOf` |
| DevAnalyzer.GithubSummaryFacts | backend/dev_analyzer.py:156-228 | a summary names the given user and reports the statistics of the response's repository list |
| DevAnalyzer.FallbackEvaluationVerdict | backend/dev_analyzer.py:393-417 | the fallback scores 50 and recommends "CONSIDER" |
| DevAnalyzer.Evaluate | backend/dev_analyzer.py:376-417 | the parsed value when it is a non-empty dict with a dict recommendation, else the fallback |
| DevAnalyzer.FallbackWaitlists | backend/dev_analyzer.py:393-417 | a fallback evaluation leads to "waitlisted" in the store, however many positions are filled |
| DevAnalyzer.DevAnalysisFacts | backend/dev_analyzer.py:443-447 | the record holds null for GitHub exactly when the summary failed, and the evaluation given |
| DevAnalyzer.AnalyzeDevCandidateFacts | backend/dev_analyzer.py:422-447 | no GitHub username or no token gives a null GitHub analysis; the evaluation is always a non-empty dict with a dict recommendation |
| LegacyAgent.GenerateKeywords | dribble_scraper_agent.py:36-127 | the result is the original queries or exactly five keywords; keywords come only from a parse to a list of five |
| LegacyAgent.KeywordsFromJsonFence | dribble_scraper_agent.py:94-97 | a reply holding a "```json" block of five keywords yields those keywords |
| LegacyAgent.KeywordsFromPlainFence | dribble_scraper_agent.py:98-101 | without "```json", a plain fenced block of five keywords yields them |
| LegacyAgent.KeywordsFromBrackets | dribble_scraper_agent.py:102-105 | without fences, the first bracketed part is what is parsed |
| LegacyAgent.LazyArrayOf | dribble_scraper_agent.py:103 | the match runs from the first '[' to the first ']' after it |
| LegacyAgent.WorkOf | dribble_scraper_agent.py:304-310 | a work exists exactly when the shot is a dict |
| LegacyAgent.WorkTitle | dribble_scraper_agent.py:306 | a work's title is the shot's title, or "Untitled Shot" |
| LegacyAgent.Works | dribble_scraper_agent.py:302-311 | one work per shot |
| LegacyAgent.ConvertWorks | dribble_scraper_agent.py:302-311 | the works loop gives `Works` |
| LegacyAgent.Pick | dribble_scraper_agent.py:318-320 | the search record's value when it has the key, else the details' value, else the default |
| LegacyAgent.Convert | dribble_scraper_agent.py:301-335 | a portfolio exists exactly when both records are dicts and every shot is a dict |
| LegacyAgent.ConvertFacts | dribble_scraper_agent.py:313-333 | identity fields from the search record, else the details, else ""; counts default to "0"; falsy specializations become []; one work per shot; links and clock kept |
| LegacyAgent.ConvertPortfolio | dribble_scraper_agent.py:301-335 | the conversion with its loop gives `Convert` |
| LegacyAgent.DesignerList | dribble_scraper_agent.py:345-355 | a list is walked item by item; a falsy value gives nothing; a non-empty string or dict raises |
| LegacyAgent.VisitKeeps | dribble_scraper_agent.py:355-390 | one designer adds at most one portfolio; a processed username changes nothing; a new one is marked processed even without social links |
| LegacyAgent.SelectKeeps | dribble_scraper_agent.py:354-392 | one query adds at most its cap of portfolios after the earlier ones |
| LegacyAgent.ScrapeKeeps | dribble_scraper_agent.py:342-395 | the scan adds at most the cap per query and keeps the state consistent |
| LegacyAgent.RunScraperFacts | dribble_scraper_agent.py:337-402 | no username twice; every portfolio has a truthy username and social links; at most the cap per query; each username's links are requested at most once |
| LegacyAgent.VisitDesigner | dribble_scraper_agent.py:355-390 | one pass of the inner loop gives `Visit` |
| LegacyAgent.SelectDesigners | dribble_scraper_agent.py:354-392 | the inner `while` loop gives `Select` |
| LegacyAgent.RunScraperLoop | dribble_scraper_agent.py:337-402 | the query loop gives `RunScraper` |
| LegacyAgent.WorkImageFilenameFacts | dribble_scraper_agent.py:445-446 | a file name starts with the username and '_', its title part is safe and at most 30 characters, and the work index reads back from it |
| LegacyAgent.WorkImages | dribble_scraper_agent.py:435-454 | at most one image; a falsy image address gives `[]`; an image carries the work's address and a name with the work index |
| LegacyAgent.WorkData | dribble_scraper_agent.py:645-651 | a relevant work exists exactly when the work has a title |
| LegacyAgent.RelevantSize | dribble_scraper_agent.py:641-652 | no more relevant works than works, each with one image |
| LegacyAgent.RelevantEmpty | dribble_scraper_agent.py:641-658 | there are no relevant works exactly when no work yielded an image |
| LegacyAgent.TotalImagesOfSingles | dribble_scraper_agent.py:708 | with one image per work, the image total is the work count |
| LegacyAgent.ProcessProfileFacts | dribble_scraper_agent.py:631-731 | between one and `max_relevant_works` relevant works; as many images as works; the portfolio's links; none when no work has an image |
| LegacyAgent.CollectRelevantWorks | dribble_scraper_agent.py:641-652 | the works loop gives `Relevant` |
| LegacyAgent.PrefixFailure | dribble_scraper_agent.py:641-652 | once a prefix of the works raises, the whole loop raises |
| Text.Strip | backend/dev_module.py:384 | no whitespace at either end, and only whitespace removed |
| Text.StripIdempotent | backend/dev_module.py:384 | stripping twice is stripping once |
| Text.Lower | backend/dev_module.py:286 | each character lower-cased in place, the length kept |
| Text.Find | backend/scraper.py:79 | the first occurrence, or -1 exactly when there is none |
| Json.Get | backend/dev_module.py:88 | the value under the key, or the default when it is missing; raises for a non-dict |

## Left out

- Network calls are parameters of the model: the reader service, Gemini, OpenAI, the GitHub
  request, RapidAPI and image downloads. Their results are oracles (`respond`, `reply`, `fetch`,
  `download`, `Services`).
- Threads, asyncio, `run_coroutine_threadsafe`, `sys.stdout` redirection and the
  `StreamingResponse` wiring are not modelled. The queue is a sequence of messages.
- Analysis threads run after the store update is modelled. The sheet poller
  (`_poll_google_sheet`, `start_sheets_poller`) is not modelled.
- File and OS I/O are not modelled: `_save`/`_load`, image writes, `os.makedirs`, the JSON
  output file, `_load_image_as_base64` and static-file mounting. So are `absolute_path` and
  the `scraped_at` clock reading.
- `datetime.now`, `uuid4` and `time.sleep` are parameters (timestamps, fresh ids) or recorded
  waits.
- Floating point is not modelled. The `overall_rating / 5 * 100` rounding is the `Rounding`
  oracle, and JSON floats are opaque. `size_kb` and the model temperatures are left out.
- DevAnalyzer.StarCount: a float `stargazerCount` is treated as a failing term, although
  Python would add it. GitHub reports integers.
- `json.loads` and the regular-expression engine are oracles. The search, profile and
  image-link matches arrive as match lists, and the parse as `Loads`.
- The lazy-array, greedy-object, fence and Sheets-link patterns are written out.
- Text.Lower: lower-cases ASCII only. Python's full Unicode case mapping is not modelled.
- CSV quoting in the export and CSV reading in the sheet import are not modelled. A row is a
  map from column to cell. Base64 encoding is an opaque string from the download oracle.
- `parse_resume` (PDF text extraction and its LLM call) is not modelled. Its result is a
  parameter of `DevAnalyzer.AnalyzeDevCandidate`.
- `analyze_image` and the image loop of `analyze_designer` are not modelled. Only the
  assessment built from the model's reply is, and the image analyses do not change it.
- Python's `1 == True` key equality is not modelled. JSON keys are compared as text, and a
  `JBool` never equals a `JNum`.
- DevModule.DevStore.TallyWebhook: a numeric, boolean or null submission id gives
  `UnsupportedId` without storing anything. Python would store the candidate under that key.
- DevModule.DevStore.ImportFromSheet: the `Submitted at` cell and the role lookup of each row
  follow one target role for the whole import. A role deleted during the import is not
  modelled.
- DevRecords.ScoreOf: a float `overall_score` gives `None`, so the candidate's status is kept.
  Python compares the float with 71 and 40 and sets the status. JSON floats are opaque here.
- DevRecords.RankKey: with two or more candidates, a text, float, null, list or dict score
  makes `get_role` raise in the model. Python raises only when the keys cannot be compared:
  it ranks all-text scores by code point, floats among integers, and lists of comparable
  items. The model's sort compares integer keys only.
- The search page's `shots_data` list is built but never used, so it is not modelled.
- Reader-service content that is not a string is only checked by `len`.
- DevAnalyzer.GithubSummary: every failure gives `None` without telling which one. The source
  also returns `None` for each.
- DevAnalyzer.Evaluate also requires a dict recommendation, as the source does: reading its
  decision raises otherwise.
- Legacy agent services are oracles in `LegacyAgent.Services`: the social-link extractor
  (`extract_social_links` and its GPT call), `search_designers`, `get_designer_details` and
  `get_designer_shots`.
- `analyze_image_with_gpt`, `analyze_with_o4_mini` and `process_all_profiles` are not
  modelled. `final_profile` keeps only the relevant works, the links and the two totals.
  `image_analyses`, `final_analysis`, `processed_at`, `processing_metadata`,
  `dribbble_specific` and `original_data` are left out.
- LegacyAgent.PyStr: a list or dict username renders as JSON, not as Python's `repr`. It is
  never reached, because such a username raises when added to the processed set.
- `run_dribbble_portfolio_scraper` and the `__main__` block of the legacy agent are not
  modelled.
- Event-stream decoding covers the frames the server writes: `event` and `data` fields and
  blank lines. `id`, `retry`, comments and carriage returns are not modelled.
- LLM prompt text is not modelled.
