# QTKT Finder core, modelled in Dafny

QTKT Finder is a web application for looking up medical technical procedures
(quy trình kỹ thuật, QTKT). Each procedure record has:

- a standard (`chuanqtkt`);
- an issuing decision (`qdbanhanh`);
- a specialty (`chuyenkhoa`);
- a procedure name (`tenqtkt`).

This project models the logic at the centre of the application and proves
what it guarantees:

- **The CSV import parser** (`csv_parser.dfy`):
  - a quote-aware line splitter, written as the character loop it is;
  - the text-to-records conversion, which rejects a text without a data line
    or with a required column missing, and skips rows of the wrong width.
- **The ordered-character matcher and the highlighter** (`fuzzy_search.dfy`):
  - `fuzzyMatch` is proved equal to "the lower-cased pattern is a subsequence
    of the lower-cased text", with the greedy scan shown to be optimal;
  - `highlightMatches`, given sorted, non-overlapping index pairs inside the
    text, is proved to produce markup whose text, with the tags removed, is
    the input, and whose marked parts are exactly the matched ranges. For
    other pairs the markup can repeat text: "abc" with the pairs [0, 1] and
    [1, 2] gives "<mark>ab</mark>b<mark>bc</mark>", whose text is
    "abbbc".
- **The search hook** (`search.dfy`): its three query cells, and the filtered
  list. The filtered list is proved to be one stable filter by the
  conjunction of the three stages.
- **The records hook and its one-day browser cache** (`qtkt_cache.dfy`):
  - when a stored snapshot is served;
  - that a cache hit opens no subscription;
  - that each delivered snapshot overwrites the entry;
  - that clearing the cache removes it.
- **The configuration page** (`configuration.dfy`):
  - the access-code guard;
  - adding, renaming and deleting standard options;
  - the two standards' colours;
  - the custom keyword colour rules.
- **The category management page** (`category_management.dfy`):
  - the list transforms of delete and save;
  - the edit and add form defaults;
  - clearing the records cache after every successful write.

Shared modules:

- `text.dfy` models the JavaScript string built-ins the core uses: `trim`,
  `toLowerCase`, `substring` and `split`.
- `sequences.dfy` holds subsequences and the stable filter.
- `wrappers.dfy` holds `Option` and `Result`.

Code that changes state step by step is modelled as imperative Dafny:

- **Character loops become methods with loop invariants**: `parseCSVLine`,
  the row loop of `parseCSV`, `fuzzyMatch` and `highlightMatches`. Each
  method is proved against a specification function.
- **React state cells and `localStorage` become classes** whose fields the
  handlers update. Awaited database writes are passed in as a `WriteOutcome`
  (`Written`, or `Failed` with the error message). `window.confirm`, the
  current time and the id a new document receives are passed in as
  parameters too.

## Model

| member | source | states |
|---|---|---|
| Text.TrimTrims | src/services/csvParser.js:22 | `trim` gives the slice `s[i..j]` of the text with a blank prefix `s[..i]` and a blank suffix `s[j..]` cut off; the result has no white space at either end, is empty exactly for blank text, and is the text itself when already trimmed |
| Text.TrimIsSlice | src/services/csvParser.js:22 | `trim` cuts only a blank prefix and a blank suffix: the result is `s[i..j]` with `s[..i]` and `s[j..]` blank |
| Text.TrimEnds | src/services/csvParser.js:22 | the trimmed text has no white space at either end, is empty exactly for blank text, and is the text itself when already trimmed |
| Text.TrimKeepsOut | src/services/csvParser.js:22 | `trim` adds no character: a character absent from the text is absent from its trim |
| Text.LowerChar | src/services/fuzzySearch.js:31-32 | capital letters (Basic Latin, Latin-1, Latin Extended-A, Vietnamese) are changed; every other character is kept; the result is never a capital letter |
| Text.Lower | src/services/fuzzySearch.js:31-32 | `toLowerCase` keeps the length and lowers each character on its own |
| Text.Substring | src/services/fuzzySearch.js:54-59 | `substring` with ordered in-range arguments is the slice between them; the result is never longer than the text |
| Text.Split | src/services/csvParser.js:36 | `split('\n')` gives at least one piece; no piece contains the separator; joining the pieces with the separator gives back the text |
| CsvParser.ParseLine | src/services/csvParser.js:2-32 | the character loop with its extra step over an escaped quote returns the fields of the scan specification; it returns one field more than there are commas outside quotes, and every field is trimmed |
| CsvParser.FieldCount | src/services/csvParser.js:7-31 | the number of fields is the number of closed fields, plus the number of commas outside quotes, plus one, so a line never has zero fields |
| CsvParser.FieldsTrimmed | src/services/csvParser.js:20-30 | every field the scan closes, the last one included, is trimmed |
| CsvParser.LoneQuoteNeverKept | src/services/csvParser.js:11-20 | a quote that is not doubled only flips the quote state: scanning text without two adjacent quotes puts no quote into any field |
| CsvParser.LineWithoutPairs | src/services/csvParser.js:2-32 | on a line without two adjacent quotes, no field of the line holds a quote |
| CsvParser.ScanEscaped | src/services/csvParser.js:11-19 | inside quotes, an escaped field and its closing quote add the field's text verbatim (commas and quotes included) and leave the quoted section |
| CsvParser.QuotedRoundTrip | src/services/csvParser.js:7-31 | any fields, each quoted with inner quotes doubled and joined with commas, parse back to the trimmed fields |
| CsvParser.PlainRoundTrip | src/services/csvParser.js:20-31 | fields without quotes or commas, joined with commas, parse back to the trimmed fields, and to themselves when already trimmed |
| CsvParser.NonBlankLines | src/services/csvParser.js:36 | the kept lines are not blank and contain no line break; they are a subsequence of the text's lines; a line is kept exactly when it is one of the text's lines and not blank, and each non-blank line is kept as many times as it occurs |
| CsvParser.ParseCsv | src/services/csvParser.js:35-87 | too few non-blank lines is an error exactly when there are fewer than two; a missing required column is an error exactly when the header lacks one; otherwise the records are those of the data lines that fit the header, and there are no more of them than data lines |
| CsvParser.ParseRows | src/services/csvParser.js:54-77 | the loop over the data lines returns the records of exactly the lines whose field count matches the header, in order, and no more records than lines |
| CsvParser.RecordKeys | src/services/csvParser.js:70-73 | a record's keys are exactly the header names |
| CsvParser.RecordField | src/services/csvParser.js:70-73 | a header that is not repeated later maps to the value in its own column (for a repeated header the last column wins) |
| CsvParser.RowsCount | src/services/csvParser.js:57-76 | there are never more records than data lines |
| CsvParser.RowsAppend | src/services/csvParser.js:57-76 | records keep the order of their lines: the rows of two blocks of lines are the rows of the first block followed by those of the second |
| CsvParser.RowsFromFittingLines | src/services/csvParser.js:57-76 | a record is produced exactly when some line has the header's width and builds that record |
| CsvParser.RowsOfOneLine | src/services/csvParser.js:58-75 | a single line yields its record when it has the header's width and is skipped otherwise |
| FuzzySearch.Consumed | src/services/fuzzySearch.js:36-40 | the greedy scan never consumes more characters than the pattern has |
| FuzzySearch.GreedyIsOptimal | src/services/fuzzySearch.js:34-42 | the first k pattern characters occur in order in the text if and only if the greedy scan consumes at least k of them |
| FuzzySearch.FuzzyMatch | src/services/fuzzySearch.js:28-43 | the loop answers true exactly when both strings are non-empty and the lower-cased pattern is a subsequence of the lower-cased text; an empty text or pattern gives false |
| FuzzySearch.MatchesIgnoresCase | src/services/fuzzySearch.js:31-32 | matching depends only on the lower-cased inputs |
| FuzzySearch.MatchesSelf | src/services/fuzzySearch.js:28-43 | every non-empty text matches itself |
| FuzzySearch.MatchesNoLonger | src/services/fuzzySearch.js:28-43 | a pattern that matches is no longer than the text |
| FuzzySearch.MatchesPrefix | src/services/fuzzySearch.js:28-43 | every non-empty prefix of a matching pattern matches too |
| FuzzySearch.MatchesAppend | src/services/fuzzySearch.js:28-43 | a match survives appending characters to the text |
| FuzzySearch.HighlightMatches | src/services/fuzzySearch.js:46-61 | the loop's markup is the rendering of the piece specification; without hits the result is the text itself |
| FuzzySearch.HighlightStep | src/services/fuzzySearch.js:53-57 | one pass of the loop appends the gap before the pair and the marked pair, keeping the markup a prefix of the whole output |
| FuzzySearch.HighlightEnd | src/services/fuzzySearch.js:59 | after the last pair only the rest of the text from the last position is appended |
| FuzzySearch.RenderStep | src/services/fuzzySearch.js:53-56 | the markup for a list of pairs is the gap, the marked first pair, then the markup for the remaining pairs |
| FuzzySearch.UnmarkedIsText | src/services/fuzzySearch.js:53-59 | for ordered pairs inside the text, removing the tags gives back the text from the current position on |
| FuzzySearch.MarksAreSpans | src/services/fuzzySearch.js:55 | the marked parts are the `substring` of each pair with its end made inclusive, one per pair and in pair order |
| FuzzySearch.HighlightKeepsText | src/services/fuzzySearch.js:46-61 | for ordered pairs inside the text, the output is markup whose untagged text is the input and whose marked parts are exactly the ranges `[start, end]` |
| FuzzySearch.HighlightNoSpans | src/services/fuzzySearch.js:49-60 | a first hit without index pairs leaves the text unchanged |
| Search.StandardValue | src/hooks/useSearch.js:18-20 | "Chuẩn cũ" and only it selects the old standard; every other label selects the new one |
| Search.ActiveIffNotBlank | src/hooks/useSearch.js:25 | a text filter is on exactly when it has a character other than white space |
| Search.ByStandard | src/hooks/useSearch.js:17-22 | the standard stage keeps exactly the records of the selected standard (all of them for "Tất cả"), and never adds any |
| Search.BySpecialty | src/hooks/useSearch.js:24-29 | the specialty stage keeps exactly the records whose specialty matches an active filter (all of them when the filter is blank) |
| Search.ByName | src/hooks/useSearch.js:31-36 | the name stage keeps exactly the records whose name matches an active search (all of them when the search is blank) |
| Search.FilteredData | src/hooks/useSearch.js:13-39 | the output is never longer than the data, and holds exactly the records of the data that pass every active stage |
| Sequences.FilterSame | src/hooks/useSearch.js:21 | filters by predicates that agree everywhere give the same list |
| Search.StageIsFilter | src/hooks/useSearch.js:17-36 | a stage that is skipped when off is a filter by "off, or keep" |
| Search.ByStandardIsFilter | src/hooks/useSearch.js:17-22 | the standard stage is a stable filter by its stage predicate |
| Search.BySpecialtyIsFilter | src/hooks/useSearch.js:24-29 | the specialty stage is a stable filter by its stage predicate |
| Search.ByNameIsFilter | src/hooks/useSearch.js:31-36 | the name stage is a stable filter by its stage predicate |
| Search.FilteredDataIsConjunction | src/hooks/useSearch.js:13-39 | the three stages together are one stable filter by their conjunction, so the output keeps the data's order and does not depend on the order of the stages |
| Search.AllStagesOff | src/hooks/useSearch.js:13-39 | with "Tất cả" and both text filters blank, the output is the data |
| Search.BlankFilterIsOff | src/hooks/useSearch.js:25-32 | a whitespace-only specialty filter or search gives the same output as an empty one |
| Search.StandardLabels | src/hooks/useSearch.js:17-22 | for a record that passes the text stages, "Tất cả" keeps it, "Chuẩn cũ" keeps it exactly when it is of the old standard, and any other label keeps it exactly when it is of the new standard |
| Search.SearchHook.constructor | src/hooks/useSearch.js:5-7 | the cells start as an empty search, "Tất cả" and an empty specialty filter, and then the output is the data |
| Search.SearchHook.SetSearchQuery | src/hooks/useSearch.js:5 | the setter changes its own cell and no other |
| Search.SearchHook.SetChuanFilter | src/hooks/useSearch.js:6 | the setter changes its own cell and no other |
| Search.SearchHook.SetChuyenkhoaFilter | src/hooks/useSearch.js:7 | the setter changes its own cell and no other |
| QtktCache.Lookup | src/hooks/useQTKTData.js:16-39 | a hit is non-empty data read from a parsed entry that is not expired |
| QtktCache.LookupHit | src/hooks/useQTKTData.js:21-24 | a read hits if and only if the slot holds a parsed entry that is not expired and whose data is present and non-empty |
| QtktCache.FreshAtBoundary | src/hooks/useQTKTData.js:5-21 | an entry exactly 24 hours old is still served; one millisecond later it is not |
| QtktCache.EmptyNeverServed | src/hooks/useQTKTData.js:24 | cached empty data is never served, whatever its age |
| QtktCache.WriteThenRead | src/hooks/useQTKTData.js:53-57 | a stored snapshot is read back within the day after it was stored, unless it is empty |
| QtktCache.CacheStore.constructor | src/hooks/useQTKTData.js:18 | the store starts with the given slot |
| QtktCache.CacheStore.Load | src/hooks/useQTKTData.js:16-39 | reading the slot gives the lookup's answer; read and parse failures are misses |
| QtktCache.CacheStore.Save | src/hooks/useQTKTData.js:53-61 | a write stores the data stamped with the current time; a refused write leaves the slot as it was |
| QtktCache.CacheStore.Clear | src/hooks/useQTKTData.js:72-75 | clearing the cache removes the entry, so every later read misses |
| QtktCache.QtktData.constructor | src/hooks/useQTKTData.js:8-10 | the hook starts with no records, loading and no error |
| QtktCache.QtktData.Mount | src/hooks/useQTKTData.js:12-47 | on a hit the cached records are shown, loading ends and no subscription is opened; on a miss a subscription is opened and the hook stays loading; the cache is not touched |
| QtktCache.QtktData.OnSnapshot | src/hooks/useQTKTData.js:47-62 | a snapshot replaces the shown records, ends loading and clears the error; when the write is allowed the entry becomes the snapshot stamped with the current time, which is then served at that time unless empty; otherwise the entry is unchanged |
| QtktCache.QtktData.Unmount | src/hooks/useQTKTData.js:64 | the cleanup closes the subscription and leaves the shown state alone |
| Configuration.AddedOptions | src/components/admin/ConfigurationPage.jsx:206-212 | a blank name adds nothing; otherwise the trimmed name is appended as value and label, after the unchanged options |
| Configuration.RenamedOptions | src/components/admin/ConfigurationPage.jsx:214-220 | the options with the old value become the new value and label; the others and the order are kept |
| Configuration.RenameLeavesNoOld | src/components/admin/ConfigurationPage.jsx:215-217 | after a rename to a different value no option has the old value, and renaming again changes nothing |
| Configuration.DeletedOptionsAsWritten | src/components/admin/ConfigurationPage.jsx:222-229 | the deletion as written refuses exactly the lists with fewer than two options, with the keep-one message, and otherwise removes every option with the value |
| Configuration.DeleteCanEmptyTheList | src/components/admin/ConfigurationPage.jsx:222-229 | two options sharing the deleted value pass the guard and leave no option at all |
| Configuration.DeletedOptions | src/components/admin/ConfigurationPage.jsx:222-229 | the corrected deletion refuses, with the keep-one message, exactly a list of fewer than two options and a deletion that would remove every option; otherwise at least one option remains, the remaining options are a subsequence of the list, an option remains exactly when it is in the list and lacks the value, and each such option keeps its number of occurrences |
| Configuration.AddThenDelete | src/components/admin/ConfigurationPage.jsx:206-229 | deleting a newly added name gives back the original list |
| Configuration.WithColor | src/components/admin/ConfigurationPage.jsx:190-204 | setting or resetting one colour of one standard changes that colour only, and keeps the custom rules |
| Configuration.ResetUndoesUpdate | src/components/admin/ConfigurationPage.jsx:190-204 | a reset after an update gives what a reset alone gives |
| Configuration.SetSameColor | src/components/admin/ConfigurationPage.jsx:190-196 | setting a colour to its current value changes nothing |
| Configuration.ApplyEdit | src/components/admin/ConfigurationPage.jsx:250 | an edit sets exactly one property of a rule and keeps its id |
| Configuration.AppendedRule | src/components/admin/ConfigurationPage.jsx:231-244 | a new rule (specialty field, no keyword, no colours) goes after the existing rules, and a missing rule list counts as empty |
| Configuration.EditedRule | src/components/admin/ConfigurationPage.jsx:246-254 | the edit is applied to the rules with the id, position by position, and the others are kept |
| Configuration.RemovedRule | src/components/admin/ConfigurationPage.jsx:260-266 | the remaining rules are a subsequence of the rules; a rule remains exactly when it lacks the id, and each such rule keeps its number of occurrences; the two standards' colours are unchanged |
| Configuration.EditKeepsIds | src/components/admin/ConfigurationPage.jsx:246-254 | editing keeps every rule's id, and an edit for an unknown id changes nothing |
| Configuration.AppendThenRemove | src/components/admin/ConfigurationPage.jsx:231-266 | removing a rule just added under a fresh id gives back the previous rules |
| Configuration.ConfigurationPage.constructor | src/components/admin/ConfigurationPage.jsx:117-131 | the page starts with null colours, no custom rules, empty inputs and nothing being edited |
| Configuration.ConfigurationPage.HandleChangeCode | src/components/admin/ConfigurationPage.jsx:175-188 | a code shorter than four characters is refused with a message and never sent; otherwise the write's outcome sets the message, and success clears the input |
| Configuration.ConfigurationPage.SaveOptions | src/components/admin/ConfigurationPage.jsx:163-173 | the options are replaced only when the write succeeds; a failure shows the error |
| Configuration.ConfigurationPage.SaveRules | src/components/admin/ConfigurationPage.jsx:151-161 | the colour settings are replaced only when the write succeeds; a failure shows the error |
| Configuration.ConfigurationPage.AddChuan | src/components/admin/ConfigurationPage.jsx:206-212 | a blank name does nothing; otherwise the input is cleared, and on success the option named by the trimmed name is appended with the saved message, while on failure the options stay and the error message is shown |
| Configuration.ConfigurationPage.UpdateChuan | src/components/admin/ConfigurationPage.jsx:214-220 | on success the options become the renamed list with the saved message; on failure they stay and the error message is shown; editing ends either way |
| Configuration.ConfigurationPage.DeleteChuan | src/components/admin/ConfigurationPage.jsx:222-229 | a refused deletion keeps the options and shows the keep-one message; an allowed one saves the remaining options with the saved message on success, and keeps them with the error message on failure; a page with at least one option keeps at least one |
| Configuration.ConfigurationPage.SetChuanColor | src/components/admin/ConfigurationPage.jsx:190-204 | on success the settings with the one colour set (or reset to null) are saved with the saved message; on failure they stay and the error message is shown |
| Configuration.ConfigurationPage.AddCustomRule | src/components/admin/ConfigurationPage.jsx:231-244 | the new rule is shown at once and is not written |
| Configuration.ConfigurationPage.UpdateCustomRule | src/components/admin/ConfigurationPage.jsx:246-254 | the edit is shown at once and is not written |
| Configuration.ConfigurationPage.SaveCustomRule | src/components/admin/ConfigurationPage.jsx:256-258 | the current settings are written unchanged |
| Configuration.ConfigurationPage.DeleteCustomRule | src/components/admin/ConfigurationPage.jsx:260-266 | on success the settings without the rule are saved with the saved message; on failure they stay and the error message is shown |
| CategoryManagement.FieldOr | src/components/admin/CategoryManagement.jsx:63-66 | a present non-empty field is read, and a missing or empty one gives the fallback |
| CategoryManagement.FormFields | src/components/admin/CategoryManagement.jsx:91 | the form writes exactly its four fields, each under its own name with the form's value |
| CategoryManagement.AddForm | src/components/admin/CategoryManagement.jsx:71-80 | the add form has empty text fields and the first option's standard, or "Thông thường" when there is no option |
| CategoryManagement.ApplyForm | src/components/admin/CategoryManagement.jsx:95 | `{ ...r, ...formData }` keeps the id, overwrites the four form fields and keeps every other field |
| CategoryManagement.EditThenSaveUnchanged | src/components/admin/CategoryManagement.jsx:60-96 | opening the editor on a record with all four fields filled and saving unchanged leaves the record as it was |
| CategoryManagement.EditFormDefaults | src/components/admin/CategoryManagement.jsx:60-69 | saving an edit form never leaves the standard empty: a missing or empty standard becomes "Thông thường"; a missing decision, specialty or name becomes empty; every field the record has is kept as it was, and a non-empty standard too |
| CategoryManagement.RemoveRecord | src/components/admin/CategoryManagement.jsx:51 | the remaining records are a subsequence of the list; a record remains exactly when it is in the list and lacks the id, and each such record keeps its number of occurrences |
| CategoryManagement.UpdateRecords | src/components/admin/CategoryManagement.jsx:94-96 | the form is applied to the records with the edited id, position by position; the others and every id are kept |
| CategoryManagement.AppendRecord | src/components/admin/CategoryManagement.jsx:104 | the new record, with the id the database gave it and the form's fields, goes after the unchanged list |
| CategoryManagement.AddThenDelete | src/components/admin/CategoryManagement.jsx:51-104 | deleting a record just added under a fresh id gives back the previous list |
| CategoryManagement.UpdateMissingId | src/components/admin/CategoryManagement.jsx:94-96 | an update for an id no record has changes nothing |
| CategoryManagement.CategoryPage.constructor | src/components/admin/CategoryManagement.jsx:8-17 | the page starts with the given records, no record edited, the modal closed and an empty form with the "Thông thường" standard |
| CategoryManagement.CategoryPage.HandleDelete | src/components/admin/CategoryManagement.jsx:44-58 | an unconfirmed delete does nothing; a successful delete removes the record, sets the message and clears the cache; a failed delete shows the error and keeps the list and the cache |
| CategoryManagement.CategoryPage.HandleEdit | src/components/admin/CategoryManagement.jsx:60-69 | the record becomes the one edited, the form is filled from it with its defaults, and the modal opens |
| CategoryManagement.CategoryPage.HandleAdd | src/components/admin/CategoryManagement.jsx:71-80 | no record is edited, the form gets the add defaults, and the modal opens |
| CategoryManagement.CategoryPage.HandleSave | src/components/admin/CategoryManagement.jsx:82-113 | a blank name is refused before any write; a successful write updates the edited record or appends the new one, clears the cache and closes the modal; a failed write shows the error and changes nothing else |

## Left out

- Fuse.js (`createFuzzySearch`, `fuzzySearch`, src/services/fuzzySearch.js:4-25): a third-party library. The highlighter takes its index pairs as input.
- `readFileAsText` (src/services/csvParser.js:90-104): browser file I/O.
- Console logging everywhere, including the table of skipped CSV rows: output only.
- Firestore itself: the page loaders (`loadData`, `loadColorRules`), `subscribeToQTKTRecords` and `updateAccessCode`. Each write is the `WriteOutcome` parameter. The records snapshot is the `data` argument of `QtktCache.QtktData.OnSnapshot`.
- The `setTimeout` that clears a success message after three seconds: timing only.
- React rendering, `PRESET_COLORS`, the colour picker component and the loading flags of the admin pages: user interface.
- CsvParser.ParseCsv: the errors are the two cases of `CsvError`, not the thrown messages' text.
- Text.LowerChar: covers the case pairs of Basic Latin, Latin-1, Latin Extended-A, `Ơ`/`Ư` and the Vietnamese letters U+1EA0–U+1EF9. It leaves unchanged the other Latin capitals `toLowerCase` would lower: the rest of Latin Extended-B (for example U+01CD `Ǎ`) and the rest of Latin Extended Additional (for example U+1E00 `Ḁ` and U+1E9E `ẞ`). It also leaves unchanged the capitals of other scripts (Greek, Cyrillic and others) and `İ`, which lowers to two characters.
- Text.Lower: characters stand for UTF-16 code units, so surrogate pairs are not modelled.
- QtktCache.Lookup: a stored `data` that is not an array is not modelled. Neither is a `timestamp` that is not a number. A missing `timestamp` is modelled, and it never expires.
- QtktCache.QtktData: `error` is never set to anything but null, because the source never does.
- Configuration.ConfigurationPage.AddCustomRule: the id `rule_${Date.now()}` is an `id` parameter.
- Configuration.ColorRules: a settings document without `chuanCu` or `chuanMoi` is not modelled. A missing `customRules` is modelled, as `None`.
- Configuration.ConfigurationPage.DeleteChuan: uses the corrected guard (see Findings), not the guard as written. The guard as written is `Configuration.DeletedOptionsAsWritten`.
- CategoryManagement.DocRecord: stores every document field as a string.

## Findings

| source | as written | input that shows it | evidently intended | confidence | as-written member | corrected member |
|---|---|---|---|---|---|---|
| src/components/admin/ConfigurationPage.jsx:222-229 | `deleteChuanQTKT` refuses only when the list has at most one option, then removes every option with the value | options `[A, A]`, both with value "QTKT", and deleting "QTKT": the guard passes and the saved list is empty | "Phải giữ ít nhất 1 loại chuẩn QTKT": at least one standard option always remains | not executed | Configuration.DeleteCanEmptyTheList | Configuration.DeletedOptions |
