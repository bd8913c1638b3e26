# Guest report intake: a Dafny model

This project models the core of a small web application. Guests file police-report
submissions through an intake link. The submissions are kept per dashboard (one
officer's shift session) in an in-memory store, rendered as a plain-text report,
and purged when the dashboard session expires.

There is one module per part of the core:

- `Normalize` (normalize.dfy) is the identity normalisers of app/store/__init__.py.
  `NormalizeName` lower-cases, strips accents, keeps `a`-`z` and white space, and
  collapses the spaces. `NormalizeRg` keeps the digits.
- `StoreModel` (store_model.dfy) is the store's state as a value, together with one
  function for each operation: `Added`, `Deleted`, `Purged`, `ListFor`,
  `CountFor` and `IsDuplicate`, plus the lemmas about them.
- `Store` (store.dfy) is the class `SubmissionStore`. It has the three dictionaries
  of the source as `map` fields: id → submission, dashboard → list of ids, and
  dashboard → set of dedup keys. Each method updates these fields in place. It is
  proved to move `State()` exactly as the matching `StoreModel` function does, while
  keeping the invariant `Valid()`.
- `Renderer` (renderer.dfy) covers app/renderer/text.py: `_format_date_br`,
  `CRIME_LABELS`, `render` and `render_structured`. `Render` builds the list of lines
  with appends and a loop, as the source does. It is proved equal to `ReportLines`.
  The layout of `ReportLines` is then proved by reading each section back with
  `Section`.
- `Expiry` (expiry.dfy) covers the session reaper of app/sessions/expiry.py. It has
  one cycle, `ExpireSessions`, and the loop around it, `Run`. The session table is a
  class whose rows the cycle updates.
- `Intake` (intake.dfy) covers the decision logic of `submit` in
  app/intake/routes.py: the name check, the answers, the photo filter, and
  duplicate-check-then-add.
- `Scenarios` (scenarios.dfy) works through concrete inputs: accented names, RGs
  with punctuation, dates, and an empty photo list.
- `Strings`, `Dict`, `Submissions` and `Wrappers` hold the Python semantics the rest
  builds on:
  - `str.strip`, `str.lower`, `"\n".join` and `str(n)`;
  - the insertion-ordered `dict`;
  - the `Submission` record;
  - `Optional`.

The store does not guard against adding the same id twice. `add` appends the id to
its dashboard's index on every call (app/store/__init__.py:71), so adding an id that
is already stored lists it twice (`StoreModel.ReAddListsTwice`). The intake endpoint
always uses a fresh id, and a fresh id is listed once (`StoreModel.AddedListsOnceMore`).

## Model

| member | source | states |
|---|---|---|
| Normalize.Fold | app/store/__init__.py:13-14 | lower case plus accent removal of one character: a lower-case letter or space is kept as it is, and an ASCII capital becomes a lower-case letter |
| Normalize.FoldAll | app/store/__init__.py:13-14 | defines `name.lower()`, the NFD decomposition and the removal of the combining marks as the code computes them: `Fold` on each character, in order |
| Normalize.FoldAllAt | app/store/__init__.py:13-14 | folding a name works character by character and keeps its length |
| Normalize.KeepLetters | app/store/__init__.py:15 | defines `re.sub(r"[^a-z\s]", "", s)` as the code computes it: the characters that are `a`-`z` or white space, in order |
| Normalize.KeepLettersKept | app/store/__init__.py:15 | `re.sub(r"[^a-z\s]", "", s)` leaves only `a`-`z` and white space, and leaves a string made only of those unchanged |
| Normalize.CollapseSpaces | app/store/__init__.py:16 | defines `re.sub(r"\s+", " ", s)` as the code computes it: each maximal run of white space becomes one space |
| Normalize.CollapseShape | app/store/__init__.py:16 | collapsing white-space runs leaves letters and single spaces, and starts with a space exactly when the input starts with white space |
| Normalize.CollapseUnchanged | app/store/__init__.py:16 | collapsing changes nothing in a string of letters and single spaces |
| Normalize.StripCanonical | app/store/__init__.py:16 | stripping letters-and-single-spaces gives the canonical form |
| Normalize.NormalizeName | app/store/__init__.py:10-16 | defines `_normalize_name` as the code computes it: fold, keep letters and white space, collapse the runs, strip |
| Normalize.NormalizeNameCanonical | app/store/__init__.py:10-16 | `_normalize_name` returns only `a`-`z` and single spaces, with no space at either end |
| Normalize.NormalizeNameFixesCanonical | app/store/__init__.py:10-16 | a name already in canonical form is returned unchanged |
| Normalize.NormalizeNameIdempotent | app/store/__init__.py:10-16 | normalising a name twice is the same as normalising it once |
| Normalize.NormalizeRg | app/store/__init__.py:19-21 | `_normalize_rg` returns only digits and is never longer than its input |
| Normalize.NormalizeRgAppend | app/store/__init__.py:19-21 | the digits of a concatenation are the digits of each part, in order |
| Normalize.NormalizeRgFixesDigits | app/store/__init__.py:19-21 | a string is unchanged by `_normalize_rg` if and only if it is all digits |
| Normalize.NormalizeRgIdempotent | app/store/__init__.py:19-21 | normalising an RG twice is the same as normalising it once |
| StoreModel.Get | app/store/__init__.py:78-80 | defines `get` as the code computes it: the stored submission, or `None` for an unknown id |
| StoreModel.IsDuplicate | app/store/__init__.py:57-63 | defines `is_duplicate` as the code computes it: some key of the submission is in its dashboard's dedup set (an empty set when the dashboard has none) |
| StoreModel.ListFor | app/store/__init__.py:82-85 | defines `list_for_dashboard` as the code computes it: the stored submissions of the indexed ids, in index order, skipping ids no longer stored |
| StoreModel.CountFor | app/store/__init__.py:102-104 | defines `count_for_dashboard` as the code computes it: the number of indexed ids still stored |
| StoreModel.Added | app/store/__init__.py:65-76 | defines `add` as the code computes it: store under the id, append the id to the dashboard's index unconditionally, add the keys to the dashboard's dedup set |
| StoreModel.Deleted | app/store/__init__.py:87-93 | defines `delete` as the code computes it: an unknown id changes nothing; otherwise the entry is popped and the first occurrence of the id leaves its dashboard's index, while the dedup set stays |
| StoreModel.Purged | app/store/__init__.py:95-100 | defines `purge_dashboard` as the code computes it: pop every indexed id from the store, then drop the dashboard's index and dedup set |
| StoreModel.PurgedAll | app/store/__init__.py:95-100 | defines the effect of purging every dashboard of a set, in any order |
| StoreModel.DedupKeys | app/store/__init__.py:46-55 | there is a name key exactly when the normalised name is non-empty, and an RG key exactly when the RG is truthy and its digits are non-empty; there are at most two keys |
| StoreModel.DuplicateByIdentity | app/store/__init__.py:57-63 | a submission is a duplicate if and only if its normalised name or its normalised RG is already among its dashboard's keys |
| StoreModel.NoKeysNeverDuplicate | app/store/__init__.py:46-63 | a submission with no usable name and no usable RG has no keys, and is never a duplicate whatever the store holds |
| StoreModel.AddedMakesDuplicate | app/store/__init__.py:65-76 | once a submission is added, a later one on the same dashboard with the same normalised name or RG is a duplicate |
| StoreModel.RemoveFirst | app/store/__init__.py:92-93 | `list.remove`: it removes exactly one occurrence of a present id (as a multiset) and changes nothing otherwise |
| StoreModel.RemoveFirstOrder | app/store/__init__.py:92-93 | `list.remove` takes out the first occurrence of the id, and everything before and after it keeps its order |
| StoreModel.RemoveFirstKeepsOthers | app/store/__init__.py:92-93 | removing one id keeps every other id in the list |
| StoreModel.PresentIsLiveIds | app/store/__init__.py:82-85 | the listing is, position by position, the stored submissions of the indexed ids that are still in `_store` |
| StoreModel.LiveIdsMembers | app/store/__init__.py:82-85 | an id is listed if and only if it is indexed and still stored |
| StoreModel.CountIsListLength | app/store/__init__.py:102-104 | `count_for_dashboard` equals the length of `list_for_dashboard` |
| StoreModel.StoredIsListed | app/store/__init__.py:82-85 | under the store invariant, every stored submission is in the listing of its dashboard |
| StoreModel.ListedAreStored | app/store/__init__.py:82-85 | every listed submission is the one stored under its id |
| StoreModel.AddedFacts | app/store/__init__.py:65-76 | after `add`, `get` returns the submission, its id is last in its dashboard's index, and its keys are in the dashboard's dedup set; no other dashboard's index or keys change |
| StoreModel.AddedListsOnceMore | app/store/__init__.py:65-76 | adding under a fresh id appends the submission once to its dashboard's listing |
| StoreModel.PresentAgree | app/store/__init__.py:82-85 | the listing depends only on the stored entries of the indexed ids |
| StoreModel.AddedInv | app/store/__init__.py:65-76 | `add` keeps the store invariant |
| StoreModel.DeletedUnknown | app/store/__init__.py:87-93 | deleting an unknown id changes nothing |
| StoreModel.DeletedKeepsDedup | app/store/__init__.py:87-93 | `delete` leaves every dedup set unchanged, so every `is_duplicate` answer stays the same |
| StoreModel.DeletedIsGone | app/store/__init__.py:87-93 | after `delete` the id is unknown and no longer listed, and one occurrence is removed from its dashboard's index |
| StoreModel.DeletedInv | app/store/__init__.py:87-93 | `delete` keeps the store invariant |
| StoreModel.PurgedFacts | app/store/__init__.py:95-100 | after `purge_dashboard(d)`: the listing and count of `d` are empty, nothing on `d` is a duplicate, and every id indexed under `d` is gone; other dashboards keep their index and keys |
| StoreModel.PurgedRemovesDashboard | app/store/__init__.py:95-100 | under the invariant, no submission of the purged dashboard is left in `_store` |
| StoreModel.PurgedIdempotent | app/store/__init__.py:95-100 | a second purge of the same dashboard changes nothing |
| StoreModel.PurgedInv | app/store/__init__.py:95-100 | `purge_dashboard` keeps the store invariant |
| StoreModel.PurgedKeepsEntry | app/store/__init__.py:95-100 | a submission that survives a purge is unchanged, belongs to another dashboard, and its dashboard's index and keys are unchanged |
| StoreModel.PurgedThenPurged | app/store/__init__.py:95-100 | purging one more dashboard after purging a set is the same as purging the larger set |
| StoreModel.PurgedNone | app/store/__init__.py:95-100 | purging no dashboard changes nothing |
| StoreModel.PurgedAllTwice | app/store/__init__.py:95-100 | purging two sets of dashboards in turn is the same as purging their union |
| StoreModel.PurgedAllInv | app/store/__init__.py:95-100 | purging any set of dashboards keeps the store invariant |
| StoreModel.PurgedAllCleared | app/store/__init__.py:95-100 | every purged dashboard lists nothing and flags no duplicate |
| StoreModel.PurgedAllSparesOthers | app/store/__init__.py:95-100 | a dashboard outside the purged set keeps its index and keys, and also its listing when no index entry is stale |
| StoreModel.DeleteKeepsPurgeClearsDedup | app/store/__init__.py:87-100 | the asymmetry between the two operations: after `delete`, a same-name submission is still a duplicate (while the deleted one is no longer listed); after `purge_dashboard` it is not |
| StoreModel.ReAddListsTwice | app/store/__init__.py:65-76 | adding the same submission twice lists it twice, because the index append is unconditional |
| Store.AddAll | app/store/__init__.py:74-75 | the loop adding each key to the dedup set yields the old set plus the keys |
| Store.PopAll | app/store/__init__.py:98-99 | the loop popping each id leaves the map without those ids |
| Store.SubmissionStore.constructor | app/store/__init__.py:40-44 | a new store is empty and valid |
| Store.SubmissionStore.IsDuplicate | app/store/__init__.py:57-63 | the early-return loop over the keys answers `StoreModel.IsDuplicate` and changes nothing |
| Store.SubmissionStore.Add | app/store/__init__.py:65-76 | the new state is `Added(old state, s)`, the store stays valid, and the returned id is `s`'s id |
| Store.SubmissionStore.Get | app/store/__init__.py:78-80 | `get` reads the stored entry, or `None` for an unknown id |
| Store.SubmissionStore.ListForDashboard | app/store/__init__.py:82-85 | the list comprehension yields `ListFor(state, d)` |
| Store.SubmissionStore.CountForDashboard | app/store/__init__.py:102-104 | the count loop yields `CountFor(state, d)` |
| Store.SubmissionStore.Delete | app/store/__init__.py:87-93 | the new state is `Deleted(old state, id)`, and the store stays valid |
| Store.SubmissionStore.PurgeDashboard | app/store/__init__.py:95-100 | the new state is `Purged(old state, d)`, and the store stays valid |
| Renderer.IsIsoDate | app/renderer/text.py:4 | defines `_ISO_DATE_RE.match` as the code computes it: four digits, `-`, two digits, `-`, two digits, where `$` also admits one trailing newline |
| Renderer.FormatDateBr | app/renderer/text.py:7-12 | defines `_format_date_br` as the code computes it: a non-empty ISO date has its three parts reversed and joined by `/`; anything else is returned as it is |
| Renderer.FormatDateBrRoundTrip | app/renderer/text.py:7-12 | an ISO date becomes a `dd/mm/yyyy` date from which the ISO date is recovered |
| Renderer.IsoFromBrRoundTrip | app/renderer/text.py:7-12 | every `dd/mm/yyyy` date is the formatted form of the ISO date read back from it |
| Renderer.FormatDateBrPassThrough | app/renderer/text.py:7-12 | a value that is not an ISO date is returned unchanged |
| Renderer.FormatDateBrIdempotent | app/renderer/text.py:7-12 | formatting an already formatted value changes nothing |
| Renderer.CrimeLabels | app/renderer/text.py:16-25 | defines `CRIME_LABELS` with the code's eight entries |
| Renderer.CrimeLabel | app/renderer/text.py:30 | defines `CRIME_LABELS.get(crime_type, crime_type)` as the code computes it |
| Renderer.CrimeLabelTable | app/renderer/text.py:16-30 | the eight known crime types get their label, and an unknown crime type is shown as it is |
| Renderer.AppendIdentity | app/renderer/text.py:34-42 | appends the `DADOS INFORMADOS:` block of name, date of birth, RG and CPF lines, then an empty line |
| Renderer.AppendAddress | app/renderer/text.py:44-46 | appends the address line and an empty line exactly when the address is truthy |
| Renderer.AppendFacts | app/renderer/text.py:50-53 | the loop over the answers appends the shown answers' lines in dict order |
| Renderer.AppendAnswers | app/renderer/text.py:48-54 | appends the `DOS FATOS:` section exactly when there are answers |
| Renderer.AppendNarrative | app/renderer/text.py:56-59 | appends the narrative section exactly when the narrative is truthy |
| Renderer.ReportLines | app/renderer/text.py:29-62 | defines the list `lines` of `render` as the code builds it, section by section |
| Renderer.Render | app/renderer/text.py:27-64 | `render` returns the lines of `ReportLines(sub)` joined by newlines, and the text ends with `ANEXOS: n foto(s)` |
| Renderer.LayoutFrame | app/renderer/text.py:29-64 | the report starts with the crime line, ends with the photo line, and its `DADOS INFORMADOS:` section is the identity block |
| Renderer.TailFacts | app/renderer/text.py:48-54 | after the identity block, the `DOS FATOS:` section is present exactly when there are answers |
| Renderer.LayoutFacts | app/renderer/text.py:48-54 | the whole report's `DOS FATOS:` section is present exactly when there are answers |
| Renderer.TailNarrative | app/renderer/text.py:56-59 | after the identity block, the narrative section is the indented narrative, exactly when it is given |
| Renderer.LayoutNarrative | app/renderer/text.py:56-59 | the whole report's narrative section is the indented narrative, exactly when it is given |
| Renderer.LayoutNoE | app/renderer/text.py:44-46 | no line outside the address part starts with `E` |
| Renderer.LayoutAddress | app/renderer/text.py:44-46 | an `ENDEREÇO:` line appears if and only if the address is given, and it carries the address |
| Renderer.FactLinesIndented | app/renderer/text.py:53 | every answer line is indented by two spaces |
| Renderer.DetailLinesIndented | app/renderer/text.py:35-41 | every identity line is indented by two spaces |
| Renderer.CrimeLineLead | app/renderer/text.py:32 | the crime line starts with `T` |
| Renderer.AttachmentsLineLead | app/renderer/text.py:62 | the photo line starts with `AN` |
| Renderer.ReportSections | app/renderer/text.py:27-64 | the whole layout of `render`: crime line first, photo line last, the identity section, the answers section exactly when there are answers, the narrative section exactly when the narrative is truthy, and an address line exactly when the address is truthy |
| Renderer.DetailFields | app/renderer/text.py:35-41 | the `Nome:` line always comes first; the date-of-birth (date-formatted), RG and CPF lines appear if and only if the field is truthy |
| Renderer.FieldBlockLines | app/renderer/text.py:36-41 | an optional identity line is present exactly when its field is truthy |
| Renderer.FactLinesPicks | app/renderer/text.py:48-54 | the answer lines are, in order, exactly the answers that are neither `None` nor `""`, each formatted as `  key: value` |
| Renderer.QMap | app/renderer/text.py:70 | defines the dict comprehension `q_map` as the code computes it: each question in turn assigned to its id |
| Renderer.Structured | app/renderer/text.py:71-80 | defines the list `render_structured` returns: for each `q_map` item in order, its entry when its answer is shown |
| Renderer.QMapShape | app/renderer/text.py:70 | the keys of `q_map` are the distinct question ids in schema order, and each maps to the last label given for that id |
| Renderer.RenderStructured | app/renderer/text.py:66-80 | the two loops of `render_structured` yield `Structured(QMap(questions), answers)` |
| Renderer.EntryShape | app/renderer/text.py:72-79 | an item gives an entry exactly when its answer is there and is neither `None` nor `""`; the entry is (label, `Sim`/`Não` or the date-formatted text) |
| Renderer.ShownItemsIncreasing | app/renderer/text.py:71-79 | the items that give entries are taken in `q_map` order |
| Renderer.ShownItemsCover | app/renderer/text.py:71-79 | every item whose answer is shown gives an entry |
| Renderer.StructuredPicks | app/renderer/text.py:71-79 | the i-th entry of the structured view is the entry of the i-th item that gives one |
| Renderer.UniqueIdsSet | app/renderer/text.py:70 | the distinct ids of `q_map` are the ids of the schema's questions |
| Renderer.StructuredBound | app/renderer/text.py:67-80 | the structured view has at most one entry per distinct question id |
| Expiry.SessionTable.constructor | app/sessions/expiry.py:28 | the table holds the given session rows |
| Expiry.ExpireAll | app/sessions/expiry.py:29-34 | defines the first loop's effect on the rows: each active, expired session set inactive, and the number of rows kept |
| Expiry.CycleRows | app/sessions/expiry.py:28-37 | defines the table after a cycle: the first loop's changes are kept only when neither the first query nor the commit raises |
| Expiry.CycleStore | app/sessions/expiry.py:21-42 | defines the store after a cycle: the purges done before the point of failure stay done |
| Expiry.ExpireAllAt | app/sessions/expiry.py:29-34 | after the first loop, each row is the old row, switched to inactive exactly when it was active and expired |
| Expiry.ExpiredIdsMembers | app/sessions/expiry.py:28-35 | a dashboard is purged by the first loop if and only if some active session with that id has expired |
| Expiry.InactiveIdsMembers | app/sessions/expiry.py:40-42 | a dashboard is purged by the second loop if and only if some session with that id is inactive |
| Expiry.NaiveIsUtc | app/sessions/expiry.py:30-33 | a timestamp without a zone is compared as UTC, the same as one with offset zero; an offset shifts the instant |
| Expiry.ExpiredAreInactive | app/sessions/expiry.py:33-40 | every session expired by the first loop is inactive for the second query |
| Expiry.CycleStoreFull | app/sessions/expiry.py:21-42 | a fault-free cycle leaves the store with exactly the inactive sessions' dashboards purged |
| Expiry.ExpiredSessionIsReaped | app/sessions/expiry.py:28-35 | an active expired session becomes inactive, and its dashboard lists nothing and flags no duplicate; under the store invariant no submission of that dashboard is left in the store |
| Expiry.LiveSessionIsKept | app/sessions/expiry.py:33-35 | an active session that has not expired stays as it was, and its dashboard's index and keys are untouched |
| Expiry.InactiveSessionsAreEmpty | app/sessions/expiry.py:39-42 | after a cycle, every inactive session, including one deactivated elsewhere, has an empty listing and no dedup keys |
| Expiry.CycleNeverReactivates | app/sessions/expiry.py:34 | a cycle only switches sessions from active to inactive, whatever fault occurs |
| Expiry.NoReactivationTransitive | app/sessions/expiry.py:9-15 | no reactivation across one cycle implies none across many cycles |
| Expiry.CycleIdempotent | app/sessions/expiry.py:21-42 | a second cycle at the same instant changes neither the sessions nor the store |
| Expiry.CycleKeepsInv | app/sessions/expiry.py:21-42 | a cycle keeps the store invariant, whatever fault occurs |
| Expiry.ExpireActive | app/sessions/expiry.py:28-36 | the first loop yields the expired rows and purges exactly the expired sessions' dashboards |
| Expiry.PurgeInactive | app/sessions/expiry.py:40-42 | the second loop purges exactly the inactive sessions' dashboards |
| Expiry.ExpireSessions | app/sessions/expiry.py:21-42 | `_expire_sessions` raises exactly when a fault occurs; the rows and the store become `CycleRows` and `CycleStore` for that fault |
| Expiry.Run | app/sessions/expiry.py:9-15 | every cycle runs, also after one that raised; no session is ever reactivated; after a last fault-free cycle no inactive session lists anything |
| Intake.IsYes | app/intake/routes.py:81 | defines `val.lower() in ("1", "true", "yes", "sim", "on")` as the code computes it |
| Intake.Answers | app/intake/routes.py:76-83 | defines the `answers` dict as the loop builds it: each question's answer stored under its id, in schema order |
| Intake.Photos | app/intake/routes.py:86-97 | defines the `photos` list as the loop builds it: each considered file's stripped bytes unless a guard skips it |
| Intake.Candidate | app/intake/routes.py:62-112 | defines the submission `submit` builds: `None` when the stripped name is empty, otherwise the stripped optional fields, the answers, the kept photos and the fresh id |
| Intake.Decide | app/intake/routes.py:65-67 | defines the endpoint's answer: name required, duplicate (lines 115-121), or accepted with the new id (lines 123-125) |
| Intake.After | app/intake/routes.py:115-123 | defines the store after a request: the candidate is added only when it exists and is not a duplicate |
| Intake.SliceTo | app/intake/routes.py:89 | `files[:max_photos]` is never longer than the file list |
| Intake.CollectAnswers | app/intake/routes.py:76-83 | the loop over the questions yields `Answers(form, questions)` |
| Intake.AnswersShape | app/intake/routes.py:76-83 | the answer keys are exactly the distinct question ids in schema order, and each id holds the answer of its last question |
| Intake.AnswerNeverEmptyText | app/intake/routes.py:79-83 | a text answer is never `""` (empty is `None`), and only boolean questions get boolean answers |
| Intake.YesIgnoresCase | app/intake/routes.py:80-81 | the truthy-word test ignores case, accepts `SIM`, `On` and `1`, and rejects `nao` and the empty string |
| Intake.LowerIdempotent | app/intake/routes.py:81 | lower-casing twice is the same as lower-casing once |
| Intake.OptionalFieldStripped | app/intake/routes.py:69-73 | an optional field is `None` exactly when it is empty after strip; otherwise it is the stripped, non-empty value |
| Intake.FilterPhotos | app/intake/routes.py:86-97 | the loop with `continue` guards yields the kept photos of `files[:max_photos]` |
| Intake.ReadDecides | app/intake/routes.py:94-96 | reading `max+1` bytes detects exactly the files larger than `max`, and a small file is read whole |
| Intake.PhotoOfKept | app/intake/routes.py:90-97 | a file is kept, EXIF-stripped, exactly when it has a name, an allowed MIME type and at most `max` bytes |
| Intake.PhotosAreKeptFiles | app/intake/routes.py:86-97 | the photos are the stripped contents of the kept files, no more than the files considered, and every kept file is in |
| Intake.PhotoBound | app/intake/routes.py:89-97 | never more photos than files, nor more than a non-negative `max_photos` |
| Intake.DefaultLimits | app/intake/routes.py:59-60 | the default limits are 3 photos of 3 MiB, so at most 3 photos are stored |
| Intake.Submit | app/intake/routes.py:62-125 | the endpoint's outcome is `Decide` and the new store is `After`, for the `Candidate` built from the request |
| Intake.NameRequiredAddsNothing | app/intake/routes.py:63-67 | the request is turned away exactly when the name is empty after strip, and then nothing is added; a built submission carries the stripped, non-empty name |
| Intake.DuplicateOrAddedOnce | app/intake/routes.py:115-123 | a duplicate leaves the store unchanged; otherwise the submission is stored and listed once, at the end |
| Scenarios.AccentedNameNormalises | app/store/__init__.py:10-16 | `João` and `JOÃO` both normalise to `joao` |
| Scenarios.SameGuestIsDuplicate | app/store/__init__.py:57-76 | the same guest written with other case is a duplicate on the same dashboard |
| Scenarios.OtherDashboardIsNot | app/store/__init__.py:59 | after one submission, nothing on another dashboard is a duplicate |
| Scenarios.RgExample | app/store/__init__.py:19-21 | `12.345-6` normalises to `123456` |
| Scenarios.RgDigitsOnly | app/store/__init__.py:51-54 | RGs that differ only in punctuation make a duplicate |
| Scenarios.NoLettersNoKey | app/store/__init__.py:46-55 | a name without letters and without an RG is never a duplicate |
| Scenarios.DateExamples | app/renderer/text.py:7-12 | `2024-03-15` becomes `15/03/2024`; `15/03/2024` and `""` are unchanged |
| Scenarios.NoPhotosLastLine | app/renderer/text.py:61-62 | a report without photos ends with `ANEXOS: 0 foto(s)` |
| Scenarios.BlankNameTurnedAway | app/intake/routes.py:63-67 | a name of spaces only is turned away and adds nothing |
| Strings.StripShape | app/intake/routes.py:63 | `strip()` returns the middle of the string, with no white space at either end |
| Strings.StripIdempotent | app/intake/routes.py:63 | stripping twice is the same as stripping once |
| Strings.NatToStringRoundTrip | app/renderer/text.py:61-62 | the photo count is printed in decimal digits that read back as the count |
| Strings.JoinLines | app/renderer/text.py:64 | `"\n".join(lines)` ends with the last line |
| Dict.Keys | app/renderer/text.py:71 | defines the keys of an insertion-ordered dict, in order, one per entry |
| Dict.Get | app/renderer/text.py:72 | defines `d.get(k)` as the code computes it: `None` exactly when `k` is not a key, otherwise a value stored under `k` |
| Dict.Unique | app/renderer/text.py:70 | defines the key order of a dict built by assignments: each string at its first occurrence, no repeats, and the same members |
| Dict.PutGet | app/intake/routes.py:81-83 | after `d[k] = v`, `k` maps to `v` and every other key is unchanged |
| Dict.PutKeys | app/intake/routes.py:81-83 | `d[k] = v` keeps the key order, and appends `k` only when it is new |

## Left out

- SHA-256 and the 16-hex-digit truncation in `_dedup_keys` (app/store/__init__.py:50, 54) are foreign code. A key is `NameKey(n)` or `RgKey(g)`, which is injective. The source truncates SHA-256 to 64 bits, so two different names or RGs can in principle share a key and be flagged as duplicates; the model assumes they never do.
- The `threading.Lock` of the store, the daemon thread, and `time.sleep(300)` come from concurrency and timing. Each store method is one atomic step. `Expiry.Run` is a finite run of cycles, one instant and one fault per cycle.
- The database behind the sessions (SQLAlchemy queries and `db.session.commit()`) is external persistence. The session table is a class holding a sequence of rows. A failure of the first query, of the commit, or of the second query is a `Fault` parameter of `Expiry.ExpireSessions`. The logging is not modelled.
- The first query in `Expiry.ExpireActive` is one pass over the rows, and the second query in `Expiry.PurgeInactive` runs over the rows after the first loop. As in the source, a failed commit leaves the rows as they were, while the purges already made stay.
- `datetime.now`, `uuid.uuid4()` and the PIL EXIF stripper are the clock, randomness, and a foreign library. They are parameters: `now`, `newId` and `stripExif`. Timestamps are integers with an optional UTC offset.
- Flask (routing, `flash`, `redirect`, templates, the link lookup before line 57, `request.files`) is left out. The form is an ordered dictionary and the files are a sequence of `Upload`s. The route's redirects become the `Outcome` values.
- Normalize.Fold: Unicode NFD and `unicodedata.category` are reduced to a table for the Latin-1 letters. Other characters whose lower case or decomposition gives an ASCII letter are dropped instead of folded; examples are the Kelvin sign and the Latin Extended-A accented letters.
- Normalize.NormalizeRg: `\d` is the ASCII digits. Python's `\d` also matches the other Unicode decimal digits, and the model drops them. The ISO-date regular expression of `Renderer.FormatDateBr` is read the same way.
- Intake.IsYes: `str.lower()` lower-cases only ASCII letters in this model. This gives the same yes/no answer, because no other character lower-cases to a letter of the five yes-words.
- Expiry.LiveSessionIsKept: it requires the session's id to be unique in the table. It promises the listing unchanged only when no index entry of the store is stale. Index and keys are unchanged in every case.
- Renderer.Render: the appends to `lines` are grouped into one helper method per section; `Renderer.AppendFacts` holds the loop over the answers. This is the same sequence of appends, in the same order.
- Answer values other than strings, booleans and `None` are not modelled, because intake produces only those.
- `received_at`: the source stores it but nothing in the core reads it.
- `start_expiry_daemon` (app/sessions/expiry.py:8, 17-19) is left out: it only starts the thread.
