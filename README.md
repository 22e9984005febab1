# day-log core, modelled in Dafny

day-log is a small journal server: one Markdown journal per day, kept in
SQLite. A journal can be synchronised to a git repository and imported back
from it, imported from a zip archive of Markdown files, and attached to
uploaded files. This project models the logic of that server that decides
things, leaving out the I/O around it. It covers:

- **The path-to-date matcher**
  - `extract_date_from_path` tries the import patterns in order.
  - `match_path_with_pattern` aligns the `/` segments of a pattern against the trailing segments of a path.
  - `capture_component` is a two-cursor scan of one segment.
  - `assign_placeholder`, `merge_or_check`, `parse_date_value`, `normalize_month_or_day` and `valid_date_parts` handle the captured values.
  - The repository-sync copy and the zip-import copy are both modelled; they differ only in how `assign_placeholder` dispatches the keys.
- **The renderers**
  - `resolve_output_path_template` and `resolve_commit_message` are chains of replace-all.
  - `now_date_tokens` converts epoch seconds to a civil date (Howard Hinnant's days-to-civil algorithm).
  - `render_journals` and `render_single_markdown` produce the Markdown output.
  - The round trip holds: a rendered output path matches back to the journal's date.
- **Repository synchronisation decisions**
  - `build_output_files`: one file per journal, or a single aggregate file.
  - Path checks: `validate_rel_path` and `ensure_md_path`.
  - `normalize_format`.
  - Credentials: `resolve_auth_mode`, `validate_auth_config` and `expand_tilde_path`.
  - The startup import: which files are collected, pattern fallback and validation, and the scan loop that rejects duplicate dates.
- **The zip import**: `normalize_patterns`, `validate_pattern`, the counting loop of `parse_zip`, and the upsert/skip accounting of `import_journal_zip` over a journal store.
- **Settings**: `normalize_date_placeholders`, the default tokens and the default import patterns, pattern cleaning on load and on update, and the field order of `update_settings`.
- **Configuration paths**: the `AppConfig` getters, `SyncConfig::default`, and the `FILE_SEQ` counter.
- **File uploads**: `sanitize_file_name`, `unique_file_name` and `resolve_target`.
- **The journal table**: `create_journal` is an upsert by date, `update_journal` refuses a date held by another row, `delete_journal` removes by id, and `list_journals` clamps its paging.

Loops that change state in the source are Dafny methods proved equal to a
specification function. Examples are the capture scan, the pattern loop, the
repository scan, the zip loop and the import loop. Objects whose fields change
are classes:

- `Journals.JournalStore` is the journal table.
- `Settings.SettingsStore` is the settings rows.
- `Files.FileSeq` is the `FILE_SEQ` counter.

Everything else is a function, and the properties are lemmas about those
functions.

Strings are `seq<char>`. Rust's `str::trim` uses the Unicode `White_Space`
list. `replace` is the non-overlapping, left-to-right replacement that
`Strings.ReplaceAll` defines. Error messages of the matcher are structured
values (`Matcher.MatchError`, `Matcher.AssignError`, `Matcher.CaptureError`)
rather than formatted text.

Modules, one file each:
- `Wrappers`: `Option` and `Result`.
- `Strings`: the Rust string operations used.
- `Placeholders`: `settings.rs` token schema.
- `Matcher`.
- `CivilDays` and `Calendar`: `now_date_tokens`.
- `Templates`: a replace chain over a template split into literals and tokens.
- `Render`: output path and commit message.
- `RoundTrip`: render, then match.
- `Journals`.
- `SyncOutput`: output files.
- `Config`.
- `SyncAuth`.
- `RepoScan`: startup import.
- `Sorting`.
- `Settings`.
- `ImportZip`.
- `Files`.
- `ImportExample`: a worked zip import under the default import patterns.

## Model

| member | source | states |
|---|---|---|
| Strings.NatToStringInjective | src/http/file.rs:216 | distinct numbers print as distinct decimal strings (the `{}` of a `u64`/`u128`) |
| Strings.NatToStringValue | src/http/repo_sync.rs:842-847 | the decimal text of `n` reads back as `n` |
| Strings.ParseU32Digits | src/http/repo_sync.rs:553-564 | a non-empty digit string of at most nine digits parses as a `u32` to its value |
| Strings.ParseI32Digits | src/http/repo_sync.rs:553-564 | a non-empty digit string of at most nine digits parses as an `i32` to its value |
| Strings.TrimShape | src/http/settings.rs:208-216 | `trim` leaves no whitespace at either end; a string is blank exactly when every character is whitespace |
| Strings.TrimIdempotent | src/http/settings.rs:208-216 | trimming twice is trimming once |
| Strings.TrimNonBlank | src/http/repo_sync.rs:102-107 | trim-then-drop-empty keeps only non-empty trimmed strings and is empty exactly when every input is blank |
| Strings.TrimNonBlankMembers | src/http/settings.rs:160-165 | the kept strings are exactly the trims of the non-blank inputs |
| Strings.TrimNonBlankIdempotent | src/http/settings.rs:160-165 | cleaning an already cleaned list changes nothing |
| Strings.SplitJoin | src/http/repo_sync.rs:333-334 | splitting on `/` undoes joining separator-free parts |
| Strings.JoinSplit | src/http/repo_sync.rs:333-334 | joining the parts of `split('/')` gives back the string |
| Strings.ReplaceShrinks | src/config/app_config.rs:218-243 | `replace("//","/")` never lengthens a string |
| Strings.ReplaceAbsent | src/http/repo_sync.rs:798-805 | replacing a pattern that does not occur changes nothing |
| Strings.StrLeTotal | src/http/settings.rs:97 | the byte order `sort` uses is total |
| Strings.StrLeTransitive | src/http/settings.rs:97 | the byte order is transitive |
| Strings.StrLeAntisymmetric | src/http/settings.rs:97 | the byte order is antisymmetric |
| Placeholders.FirstBadField | src/http/settings.rs:219-240 | no field is reported exactly when all eight are in brace form; otherwise the first one that is not, as empty or as not in brace form |
| Placeholders.NormalizeDatePlaceholders | src/http/settings.rs:207-250 | the two loops return what `Normalize` specifies |
| Placeholders.FirstRepeatNone | src/http/settings.rs:242-247 | the set-insert loop finds no repeat exactly when the tokens are pairwise distinct |
| Placeholders.FirstRepeatSome | src/http/settings.rs:242-247 | a reported repeat is a token that occurred earlier |
| Placeholders.NormalizeOk | src/http/settings.rs:207-250 | normalisation succeeds exactly when the trimmed tokens are in brace form and pairwise distinct, and then returns the trimmed tokens |
| Placeholders.NormalizeFieldError | src/http/settings.rs:219-240 | a field error names the first bad field in the order yyyy, MM, M, dd, d, date, timestamp, count |
| Placeholders.NormalizeDuplicateError | src/http/settings.rs:242-247 | a duplicate error names a token that repeats an earlier one, after all fields passed the form check |
| Placeholders.DefaultNormalizes | src/http/settings.rs:194-205 | the default tokens pass normalisation unchanged |
| Placeholders.DefaultWellFormed | src/http/settings.rs:194-205 | the default tokens are in brace form and pairwise distinct |
| Placeholders.NormalizeIdempotent | src/http/settings.rs:207-250 | normalising a normalised value returns it again |
| Matcher.ValidDatePartsDigits | src/http/repo_sync.rs:553-564 | for short digit strings, `valid_date_parts` holds exactly when the month is in 1..12 and the day in 1..31 (the month's length is not checked) |
| Matcher.NormalizeMonthOrDay | src/http/repo_sync.rs:542-551 | accepts exactly one- or two-digit values in range, and returns them zero-padded to two digits with the same value |
| Matcher.ParseSeparated | src/http/repo_sync.rs:516-539 | a `-`, `_` or `.` separated date yields a four-digit year, a month 01..12 and a day 01..31 |
| Matcher.ParseDateValue | src/http/repo_sync.rs:504-540 | any accepted value yields a four-digit year, month 01..12 and day 01..31 |
| Matcher.ParseDateValueEightDigits | src/http/repo_sync.rs:505-514 | eight digits with a valid month and day split as `yyyy`,`MM`,`dd` |
| Matcher.ParseDateValueDigitsOnly | src/http/repo_sync.rs:504-540 | an all-digit value is accepted only when it has exactly eight digits |
| Matcher.PlaceholderKey | src/http/repo_sync.rs:488-493 | a key is extracted exactly from a brace-form token, which is `{` + key + `}`; otherwise the token is the error |
| Matcher.MergeOrCheck | src/http/repo_sync.rs:495-502 | succeeds exactly when the slot is empty or already holds the value; on success the slot holds the value, on failure it is unchanged |
| Matcher.DispatchCopiesAgree | src/http/import_zip.rs:408-486 | the separate MM/M and dd/d branches of the zip copy pick the same slot as the joined branches of the sync copy |
| Matcher.AssignKeepsShape | src/http/repo_sync.rs:428-486 | a successful assignment keeps the slots well formed, leaves filled month and day slots as they were, and keeps a filled year slot filled |
| Matcher.AssignCopiesAgree | src/http/import_zip.rs:408-486 | both copies of `assign_placeholder` give the same result |
| Matcher.YearOverwrites | src/http/repo_sync.rs:447-454 | `{yyyy}` overwrites the year slot without a conflict check |
| Matcher.MonthConflictDetected | src/http/repo_sync.rs:455-464 | a month that disagrees with the filled month slot fails as a month conflict |
| Matcher.DayConflictDetected | src/http/repo_sync.rs:465-474 | a day that disagrees with the filled day slot fails as a day conflict |
| Matcher.UnknownKeyRefused | src/http/repo_sync.rs:484 | a key naming none of the six date tokens fails as an unsupported placeholder |
| Matcher.DateKeyNeedsEightDigits | src/http/repo_sync.rs:436-483 | because every value must be all digits, `{date}` only succeeds on an eight-digit value |
| RoundTrip.RenderedDateRefused | src/http/repo_sync.rs:436-438 | a `yyyy-MM-dd` value is refused as non-digit, whatever the key |
| Matcher.CapturePlaceholder | src/http/repo_sync.rs:379-408 | the `{` branch either fails with the scan's error or advances both cursors with the scan's result unchanged |
| Matcher.CaptureComponent | src/http/repo_sync.rs:365-426 | the two-cursor loop returns exactly what `Capture` specifies |
| Matcher.CaptureLiteral | src/http/repo_sync.rs:409-425 | a brace-free template segment matches exactly the identical segment and leaves the slots unchanged |
| Matcher.CaptureKeepsShape | src/http/repo_sync.rs:365-426 | a successful segment scan keeps the slots well formed and extends them |
| Matcher.PlaceholderKeepsShape | src/http/repo_sync.rs:379-408 | a successful scan that starts at a placeholder keeps the slots well formed and extends them |
| Matcher.CaptureBraceStep | src/http/repo_sync.rs:379-408 | a successful scan at a placeholder has found the closing brace and the end of the value, assigned the value, and continues after it with the new slots |
| Matcher.CaptureAssignStep | src/http/repo_sync.rs:379-408 | once the brace is closed, the value found and assigned, the scan gives what the rest of the segment gives with the new slots |
| Matcher.CaptureAdvance | src/http/repo_sync.rs:379-408 | at cursors `i` and `j`, moving `i` past the `}` and `j` past the value leaves the scan's result unchanged |
| Matcher.CaptureCopiesAgree | src/http/import_zip.rs:345-406 | both copies of `capture_component` agree |
| Matcher.CaptureSegments | src/http/repo_sync.rs:350-352 | the per-segment loop returns what `CaptureAll` specifies |
| Matcher.MatchPathWithPattern | src/http/repo_sync.rs:328-363 | the method returns what `MatchPath` specifies, including "too short" and the missing-slot errors |
| Matcher.MatchPathIsoDate | src/http/repo_sync.rs:354-362 | a successful match is `yyyy-MM-dd` with a four-digit year, month 01..12 and day 01..31 |
| Matcher.WellFormedSlotsAreValid | src/http/repo_sync.rs:358-360 | filled, well-formed slots always pass `valid_date_parts` |
| Matcher.MatchPathCopiesAgree | src/http/import_zip.rs:308-343 | both copies of `match_path_with_pattern` agree |
| Matcher.ExtractOkIff | src/http/repo_sync.rs:313-326 | extraction succeeds exactly when some pattern matches |
| Matcher.ExtractFirstMatch | src/http/repo_sync.rs:313-326 | a successful extraction returns the date of a pattern that matches, and every pattern before it fails to match |
| Matcher.ExtractReasons | src/http/import_zip.rs:293-306 | on failure the error holds one reason per pattern, in pattern order |
| Matcher.ExtractDateFromPath | src/http/repo_sync.rs:313-326 | the pattern loop returns what `Extract` specifies |
| Matcher.ExtractCopiesAgree | src/http/import_zip.rs:293-306 | both copies of `extract_date_from_path` agree |
| Matcher.ExtractIsoDate | src/http/repo_sync.rs:313-326 | an extracted date is always `yyyy-MM-dd` |
| CivilDays.TruncDiv | src/http/repo_sync.rs:833-839 | Rust's truncating `/` agrees with Dafny's on non-negative operands |
| CivilDays.DayOfEraInRange | src/http/repo_sync.rs:833-834 | the day of the era lies in 0..146096 |
| CivilDays.DayOfYearInRange | src/http/repo_sync.rs:835-837 | the year of the era is non-negative and the day of the year lies in 0..365 |
| CivilDays.MonthAndDayInRange | src/http/repo_sync.rs:838-840 | the March-based month index lies in 0..11 and the day in 1..31 |
| CivilDays.CivilRanges | src/http/repo_sync.rs:830-841 | every day count converts to a month in 1..12 and a day in 1..31 |
| CivilDays.EpochCivil | src/http/repo_sync.rs:830-841 | day 0 is 1970-01-01 |
| CivilDays.LeapDay2000 | src/http/repo_sync.rs:830-841 | 951782400 seconds is 2000-02-29 |
| CivilDays.NewYear2000 | src/http/repo_sync.rs:830-841 | the last second of 1999 and the first second of 2000 fall on 1999-12-31 and 2000-01-01 |
| Calendar.TokensOf | src/http/repo_sync.rs:842-848 | `MM`/`dd` are the two-digit month and day, `M`/`d` are the same without a leading zero, and `date` is `yyyy-MM-dd` |
| Calendar.NowDateTokens | src/http/repo_sync.rs:825-849 | for any `u64` seconds the month is 01..12, the day 01..31, and `date == yyyy + "-" + MM + "-" + dd` |
| Calendar.EpochIsNewYear1970 | src/http/repo_sync.rs:825-849 | 0 seconds gives the tokens of 1970-01-01 |
| Templates.ReplaceText | src/http/repo_sync.rs:798-805 | replacing one token throughout a template built from literals and plain tokens substitutes exactly that token's places |
| Templates.ReplaceChainText | src/http/repo_sync.rs:798-805 | a chain of replacements substitutes every token of the chain and no other |
| Templates.TokenNotPrefix | src/http/settings.rs:194-205 | one plain brace token never starts with a different one, so replacing one token never touches another |
| Render.ResolveOutputPathAccepts | src/http/repo_sync.rs:776-797 | the output path resolves exactly when the date splits into 4-2-2 ASCII digits |
| Render.ResolveOutputPathChain | src/http/repo_sync.rs:798-805 | the path is the template after replacing yyyy, MM, M, dd, d, date in that order, with M and d without leading zero |
| Render.PathChainUnfold | src/http/repo_sync.rs:798-804 | the chain is the six nested `replace` calls of the source |
| Render.ResolveOutputPathText | src/http/repo_sync.rs:771-806 | a template of literals and plain tokens resolves to its text with every date token substituted |
| Render.ResolveCommitMessageChain | src/http/repo_sync.rs:808-823 | the message replaces timestamp, count, then the date tokens of now, in that order |
| Render.ResolveCommitMessageText | src/http/repo_sync.rs:808-823 | a template of literals and plain tokens gets every token substituted |
| Render.SplitDateShape | src/http/repo_sync.rs:776-782 | a 4-2-2 digit date splits on `-` into its three fields |
| RoundTrip.DateKeysPlain | src/http/repo_sync.rs:440-445 | plain tokens yield their inner text as keys |
| RoundTrip.DispatchPlain | src/http/repo_sync.rs:447-485 | with distinct plain tokens, each date token's key selects its own branch in both copies |
| RoundTrip.AssignRendered | src/http/repo_sync.rs:428-486 | assigning a rendered year, month or day value fills the slot with that part of the date |
| RoundTrip.CaptureSegment | src/http/repo_sync.rs:365-426 | scanning a rendered segment against its template fills exactly the slots of the segment's tokens |
| RoundTrip.CaptureSegments | src/http/repo_sync.rs:350-352 | scanning every rendered segment fills the slots of all tokens |
| RoundTrip.RenderThenMatch | src/http/repo_sync.rs:771-806 | with distinct plain brace tokens, a template whose segments use only year, month and day tokens (at least one of each), each followed by the segment's end or a non-digit literal, renders any `yyyy-MM-dd` date to a path that `match_path_with_pattern` maps back to that date |
| RoundTrip.DefaultOutputRoundTrip | src/config/app_config.rs:79-81 | the default output path `journals/{yyyy}/{MM}-{dd}/{d}.md` renders any `yyyy-MM-dd` date to a path that matches back to it |
| RoundTrip.AssembleRendered | src/http/repo_sync.rs:354-362 | slots holding the parts of a date assemble to that date |
| Journals.IndexWhere | src/http/journal.rs:54-58 | the lookup (by date in `create_journal`, by id in update and delete) returns the first row in rowid order that satisfies the condition, or there is none |
| Journals.CreateKeepsValid | src/http/journal.rs:47-103 | create keeps the table invariant, in particular at most one journal per date |
| Journals.CreateOverwrites | src/http/journal.rs:60-80 | with a row of that date, only its content and update time change; id, date and creation time stay, and no other row changes |
| Journals.CreateInserts | src/http/journal.rs:82-102 | without such a row, a new row with a fresh id and `create_time == update_time == ts` is appended |
| Journals.CreateThenFind | src/http/journal.rs:47-103 | after a create, the row of that date is the returned journal, with the new content |
| Journals.JournalStore.Create | src/http/journal.rs:47-103 | the store keeps its invariant and changes as `CreateJournal` specifies |
| Journals.UpdateErrors | src/http/journal.rs:172-210 | an empty request is a bad request; a date held by another id is refused; not found exactly when the checks pass and no row has the id |
| Journals.UpdateCoalesces | src/http/journal.rs:196-208 | absent fields keep their values, and only that row changes |
| Journals.UpdateKeepsValid | src/http/journal.rs:180-194 | the date check keeps one journal per date |
| Journals.JournalStore.Update | src/http/journal.rs:165-221 | the store changes as `UpdateJournal` specifies and is untouched on an error |
| Journals.DeleteExact | src/http/journal.rs:223-234 | delete fails exactly when no row has the id, and otherwise removes that row and keeps every other row in order |
| Journals.DeleteKeepsValid | src/http/journal.rs:223-234 | delete keeps the table invariant |
| Journals.JournalStore.Delete | src/http/journal.rs:223-234 | the store changes as `DeleteJournal` specifies and is untouched on an error |
| Journals.GetJournal | src/http/journal.rs:149-163 | found exactly when some row has the id, and then it is that row |
| Journals.Clamp | src/http/journal.rs:109-110 | the clamped value lies in the bounds and is unchanged when it already did |
| Journals.ListPaging | src/http/journal.rs:109-144 | page in 1..1000, size in 1..100, at most `size` rows taken from offset `(page-1)*size` of the selection |
| Journals.ListAllById | src/http/journal.rs:135-143 | without a date the page is in ascending id order |
| Journals.ListMonth | src/http/journal.rs:113-124 | a date of seven bytes selects exactly the rows whose date is `LIKE date-%`, ordered by date, with no two of the same date |
| Journals.LikeMonthPrefix | src/http/journal.rs:115-116 | `LIKE d-%` is an ASCII-case-insensitive prefix test when `d` holds no wildcard |
| Journals.ListExactDate | src/http/journal.rs:125-134 | any other date selects the rows with exactly that date, of which there is at most one |
| Journals.Utf8LenAscii | src/http/journal.rs:115 | `len()` counts bytes; for ASCII text it is the character count |
| SyncOutput.NormalizeFormat | src/http/repo_sync.rs:683-689 | `md` and `markdown` in any case and with surrounding whitespace become `markdown`; anything else is an error |
| SyncOutput.NormalizeFormatIdempotent | src/http/repo_sync.rs:683-689 | a normalised format normalises to itself |
| SyncOutput.ContainsDatePlaceholder | src/http/repo_sync.rs:758-769 | true exactly when the path contains one of the six date tokens |
| SyncOutput.NoDateTokenRendersVerbatim | src/http/repo_sync.rs:758-805 | a template without date tokens resolves to itself |
| SyncOutput.ValidateRelPath | src/http/repo_sync.rs:667-681 | accepted exactly when the trimmed path is non-empty, relative and has no `..` component |
| SyncOutput.ValidateRelPathIdempotent | src/http/repo_sync.rs:667-681 | an accepted path is accepted again unchanged |
| SyncOutput.MdExtensionIff | src/http/repo_sync.rs:745-756 | the extension is `md` in any ASCII case exactly when the name is at least four characters and ends in `.md` ignoring case (so `.md` alone has no extension) |
| SyncOutput.RenderJournals | src/http/repo_sync.rs:691-704 | `markdown` yields the header and one section per journal, in order; any other format is an error |
| SyncOutput.SectionsAppend | src/http/repo_sync.rs:695-699 | the sections of two lists are the concatenation of their sections |
| SyncOutput.RenderSingle | src/http/repo_sync.rs:706-712 | the single-journal file starts with `# ` and the date and a blank line, ends with the content and a newline, and the content can be cut back out of it; five characters of markup in all |
| SyncOutput.CheckedPath | src/http/repo_sync.rs:724-740 | accepted exactly when `validate_rel_path` accepts and the trimmed path has the `md` extension; the result is that trimmed, safe path |
| SyncOutput.EntryFilesLoop | src/http/repo_sync.rs:720-735 | the per-entry loop returns what `EntryFiles` specifies |
| SyncOutput.BuildOutputFilesLoop | src/http/repo_sync.rs:714-743 | the method returns what `BuildOutputFiles` specifies |
| SyncOutput.EntryFilesShape | src/http/repo_sync.rs:720-731 | one file per journal, in journal order, each at the trimmed rendered path with the single-journal content |
| SyncOutput.PerEntryFiles | src/http/repo_sync.rs:720-735 | in per-entry mode there is exactly one file per journal, in order, and at least one |
| SyncOutput.PerEntryNeedsJournals | src/http/repo_sync.rs:732-734 | per-entry mode with no journals is an error |
| SyncOutput.AggregateFile | src/http/repo_sync.rs:738-742 | otherwise there is exactly one aggregate file at the trimmed template path |
| SyncOutput.OutputPathsSafe | src/http/repo_sync.rs:714-756 | every produced path is non-empty, trimmed, relative, free of `..` and has the `.md` extension |
| Config.DefaultSync | src/config/app_config.rs:127-149 | the defaults: disabled, branch `main`, method `auto`, ssh user `git`, no import patterns, markdown output at `journals/{yyyy}/{MM}-{dd}/{d}.md` |
| Config.DbPath | src/config/app_config.rs:218-220 | at most the length of `base + "/" + db` |
| Config.IndexPath | src/config/app_config.rs:222-224 | the index path field unchanged |
| Config.StaticPath | src/config/app_config.rs:226-228 | the static path field unchanged |
| Config.MediaPath | src/config/app_config.rs:230-233 | ends with `/` and is never longer than the unreplaced concatenation |
| Config.PicturePath | src/config/app_config.rs:235-238 | ends with `/` and is never longer than the unreplaced concatenation |
| Config.FilePath | src/config/app_config.rs:240-243 | ends with `/` and is never longer than the unreplaced concatenation |
| Config.SyncRepoPath | src/config/app_config.rs:245-251 | an absolute local path is returned unchanged, a relative one joined to the base with `//` collapsed |
| Config.JoinCollapsePlain | src/config/app_config.rs:218-251 | without stray slashes the collapse does nothing and the join is `a + "/" + b` |
| Config.SyncRepoPathRelative | src/config/app_config.rs:245-251 | a clean relative path is `base + "/" + path` |
| Config.CollapseKeepsTripleSlashPair | src/config/app_config.rs:218-251 | one pass of `replace("//","/")` leaves `//` when three slashes meet |
| Config.DefaultSyncIsPerEntry | src/config/app_config.rs:79-81 | the default output path contains date tokens, so the default sync writes one file per journal |
| SyncAuth.ResolveAuthMode | src/http/repo_sync.rs:1053-1072 | `password`/`userpass`/`https` give password, `ssh` gives ssh, `auto` or empty decides automatically, and anything else is an error |
| SyncAuth.AutoMode | src/http/repo_sync.rs:1058-1069 | a GitHub URL gives ssh before credentials are considered; otherwise password exactly when both credentials are present or no key is set |
| SyncAuth.GithubAutoIsSsh | src/http/repo_sync.rs:1058-1061 | under `auto` a GitHub URL resolves to ssh whatever the username and password |
| SyncAuth.ExpandTildePath | src/http/repo_sync.rs:1109-1124 | `~` is HOME, `~/x` is HOME joined with x, other `~` forms and a missing HOME are errors, anything else is unchanged |
| SyncAuth.PathJoin | src/http/repo_sync.rs:1118-1119 | `Path::join`: an absolute rest replaces the base; otherwise the result starts with the base and ends with the rest |
| SyncAuth.TildeExpandsUnderHome | src/http/repo_sync.rs:1118-1119 | `~/rest` expands to a path that starts with HOME and ends with rest |
| SyncAuth.ValidateAuthConfig | src/http/repo_sync.rs:1074-1102 | password mode needs a non-blank username and password; ssh mode needs a non-blank key path that exists after tilde expansion |
| SyncAuth.GithubAutoNeedsKey | src/http/repo_sync.rs:1053-1102 | under `auto` a GitHub repository passes the checks exactly when the key path is set, expands and exists |
| SyncAuth.CheckedConfigHasCredentials | src/http/repo_sync.rs:98-99 | a configuration that passes both checks has the credentials of its mode |
| SyncAuth.DefaultSyncAuth | src/config/app_config.rs:127-149 | the default configuration resolves to password and fails for want of credentials |
| RepoScan.CollectMarkdownFiles | src/http/repo_sync.rs:253-287 | the kept files are exactly the walk's files outside `.git` with an `md` extension in any case |
| RepoScan.RelPath | src/http/repo_sync.rs:219 | backslashes become `/`, keeping the length |
| RepoScan.FileDates | src/http/repo_sync.rs:220-227 | the k-th date is the date the patterns give the k-th file |
| RepoScan.ScanFile | src/http/repo_sync.rs:219-242 | one iteration skips an unmatched file or a seen date, and otherwise reads and keeps the file |
| RepoScan.ScanRepoMarkdownEntries | src/http/repo_sync.rs:206-251 | the loop returns the report of `Scan`, or its read error |
| RepoScan.ScanErrorStops | src/http/repo_sync.rs:235-237 | a read error ends the scan with that error |
| RepoScan.ScanCounts | src/http/repo_sync.rs:218-250 | every file is counted once, as an entry or as a skip |
| RepoScan.ScanDatesDistinct | src/http/repo_sync.rs:229-233 | the seen dates are the entries' dates, and the entries' dates are pairwise distinct |
| RepoScan.ScanEntriesFromFiles | src/http/repo_sync.rs:235-242 | every entry is the normalised path, date and content of some file |
| RepoScan.ScanSeesAllDates | src/http/repo_sync.rs:220-233 | every date some file has was seen |
| RepoScan.ScanFirstWins | src/http/repo_sync.rs:229-242 | the first file with a date is the one kept under it |
| RepoScan.FirstMatchingFileWins | src/http/repo_sync.rs:206-251 | for the dates the patterns give, the first file whose path gives a date is kept under it |
| RepoScan.ScanReportCounts | src/http/repo_sync.rs:245-250 | `total_markdown_files == matched_files + skipped_count == ` the number of files |
| RepoScan.StartupPatterns | src/http/repo_sync.rs:102-110 | the trimmed non-blank configured patterns, or the output path when none remain |
| RepoScan.ValidateStartupImportPattern | src/http/repo_sync.rs:289-311 | accepted exactly when the pattern has year, month and day tokens or the date token |
| RepoScan.FirstInvalidPattern | src/http/repo_sync.rs:111-113 | none exactly when every pattern is valid, otherwise an invalid pattern of the list |
| RepoScan.StartupImportChecked | src/http/repo_sync.rs:88-113 | the import goes ahead only when sync is enabled, the URL is set, the credentials pass, and every pattern is valid |
| RepoScan.DefaultOutputPathIsValidPattern | src/http/repo_sync.rs:108-110 | with no usable import pattern, the default output path is the pattern and it is valid |
| Sorting.InsertBySorted | src/http/settings.rs:97 | inserting into a sorted list keeps it sorted |
| Sorting.SortBy | src/http/settings.rs:97 | sorting is a permutation |
| Sorting.SortBySorted | src/http/settings.rs:97 | the sorted list is ordered by key |
| Sorting.Dedup | src/http/settings.rs:98 | `dedup` keeps the same members and the first element |
| Sorting.DedupSortedAscending | src/http/settings.rs:97-98 | after a sort, `dedup` leaves a strictly ascending list |
| Settings.DefaultImportPatternsBy | src/http/settings.rs:173-192 | four patterns, each ending in `.md` and holding year, month and day tokens |
| Settings.CleanPatternsSpec | src/http/settings.rs:90-98 | the cleaned list is strictly ascending, holds exactly the trimmed non-blank inputs, and is empty exactly when all inputs are blank |
| Settings.LoadDatePlaceholders | src/http/settings.rs:152-156 | none when missing, unparsable or failing normalisation; otherwise a normalised value |
| Settings.LoadImportPatterns | src/http/settings.rs:158-171 | none when missing, unparsable or all blank; otherwise a non-empty list of trimmed, non-empty strings |
| Settings.GetSettings | src/http/settings.rs:51-71 | each field is the stored value when one loads (normalised tokens, non-empty trimmed patterns, the stored path and message) and otherwise its default: default tokens, default patterns for those tokens, and the configured path and message |
| Settings.StepPlaceholders | src/http/settings.rs:77-88 | the placeholder step saves the normalised value, refuses one that fails normalisation, and touches no other field |
| Settings.StepPatterns | src/http/settings.rs:90-111 | the pattern step saves the cleaned list, refuses an empty one, and touches no other field |
| Settings.StepOutputPath | src/http/settings.rs:113-126 | the path step saves the trimmed path, refuses a blank one, and touches no other field |
| Settings.StepCommitMessage | src/http/settings.rs:127-140 | the message step saves the trimmed message, refuses a blank one, and touches no other field |
| Settings.UpdateThenGet | src/http/settings.rs:73-144 | a successful update answers with what `get_settings` reads back, each field carrying the cleaned value sent |
| Settings.ApplySavesRequested | src/http/settings.rs:77-140 | after a successful update every requested field holds its cleaned value |
| Settings.UpdateEmptyRequest | src/http/settings.rs:73-144 | an empty request changes nothing and answers with the current settings |
| Settings.UpdateBlankPathKeepsEarlierSaves | src/http/settings.rs:77-126 | a blank output path is refused after the placeholders and patterns were already saved |
| Settings.UpdateTouchesOnlyRequested | src/http/settings.rs:77-140 | fields the request does not carry are never changed |
| Settings.SettingsStore.Update | src/http/settings.rs:73-144 | the store changes, and answers, as `UpdateSettings` specifies |
| Settings.SettingsStore.SavePlaceholders | src/http/settings.rs:77-88 | the store changes as `StepPlaceholders` specifies |
| Settings.SettingsStore.SavePatterns | src/http/settings.rs:90-111 | the store changes as `StepPatterns` specifies |
| Settings.SettingsStore.SaveOutputPath | src/http/settings.rs:113-126 | the store changes as `StepOutputPath` specifies |
| Settings.SettingsStore.SaveCommitMessage | src/http/settings.rs:127-140 | the store changes as `StepCommitMessage` specifies |
| ImportZip.ValidatePattern | src/http/import_zip.rs:213-232 | accepted exactly when the pattern has `yyyy` and (`MM` or `M`) and (`dd` or `d`), or `date`; the error message names the pattern and the tokens |
| ImportZip.SplitList | src/http/import_zip.rs:189-192 | splitting on newline, `,` or `;` gives parts free of separators whose concatenation is the input without separators |
| ImportZip.TrimEach | src/http/import_zip.rs:191 | each part is trimmed |
| ImportZip.DropBlank | src/http/import_zip.rs:198 | the kept strings are exactly the non-blank ones |
| ImportZip.Uniq | src/http/import_zip.rs:199-200 | keeps the same members, pairwise distinct |
| ImportZip.UniqFirstOccurrenceOrder | src/http/import_zip.rs:199-200 | the kept strings are in the order of their first occurrences |
| ImportZip.NormalizeSpec | src/http/import_zip.rs:177-211 | on success: non-empty, exactly the non-blank strings of the selected source, pairwise distinct, every one valid; otherwise `patterns required` or the error of an invalid pattern |
| ImportZip.PatternsRequiredWhenAllBlank | src/http/import_zip.rs:198-204 | `patterns required` exactly when every string of the selected source is blank |
| ImportZip.RetainNonBlank | src/http/import_zip.rs:198 | the first `retain` keeps what `DropBlank` specifies |
| ImportZip.RetainFirstOccurrences | src/http/import_zip.rs:199-200 | the set-insert `retain` keeps what `Uniq` specifies |
| ImportZip.ValidateAll | src/http/import_zip.rs:206-208 | succeeds exactly when every pattern is valid, and otherwise fails with the first invalid pattern's error |
| ImportZip.NormalizePatterns | src/http/import_zip.rs:177-211 | the method returns what `NormalizeSpec` specifies |
| ImportZip.ParseEntry | src/http/import_zip.rs:247-282 | one loop iteration returns what `ParseStep` specifies: a read error, an entry passed over, a skip with its reasons, or an appended entry |
| ImportZip.ParseZip | src/http/import_zip.rs:234-291 | the loop returns what `ParseZipSpec` specifies |
| ImportZip.ParseErrorStops | src/http/import_zip.rs:246-275 | a read error ends the parse with that error |
| ImportZip.ParseCounts | src/http/import_zip.rs:246-290 | the total is the number of Markdown file entries and equals matched plus skipped; entries and skips are all Markdown and every entry date is `yyyy-MM-dd` |
| ImportZip.ParseFoldNext | src/http/import_zip.rs:246 | the state after `k + 1` entries is one step from the state after `k` |
| ImportZip.ParseFoldSnoc | src/http/import_zip.rs:246 | an entry appended to the archive adds one step to the loop |
| ImportZip.ParseStepOther | src/http/import_zip.rs:250-257 | a directory or a file that is not Markdown leaves counts, entries and skips unchanged |
| ImportZip.ParseStepUnmatched | src/http/import_zip.rs:258-271 | a Markdown file whose path yields no date is counted and skipped with every pattern's reason |
| ImportZip.ParseStepWell | src/http/import_zip.rs:246-282 | one successful iteration keeps total = entries + skips, entries Markdown with `yyyy-MM-dd` dates and skips Markdown, and adds one to the total exactly for a Markdown file |
| ImportZip.ParseZipTwoThenOther | src/http/import_zip.rs:234-291 | two entries that each parse, then one that is not a Markdown file: the result is the state after the first two |
| ImportZip.ParseStepMatched | src/http/import_zip.rs:254-282 | a readable Markdown entry whose path gives a date is counted and appended as an entry with its normalised path, date and content |
| ImportZip.ParseKeepsSameDate | src/http/import_zip.rs:260-282 | two entries with the same date are both kept, unlike the repository scan |
| ImportZip.ImportSkips | src/http/import_zip.rs:140-149 | every import skip is a "db insert failed" skip |
| ImportZip.ImportAccounts | src/http/import_zip.rs:112-150 | each entry is either imported or skipped |
| ImportZip.ImportKeepsValid | src/http/import_zip.rs:112-138 | the upserts keep one journal per date |
| ImportZip.CreateKeepsOtherDates | src/http/import_zip.rs:119-136 | an upsert for one date leaves the row of another date as it was |
| ImportZip.ImportLastWriteWins | src/http/import_zip.rs:112-150 | a stored entry with no later stored entry of the same date ends up in the table |
| ImportZip.TryCreate | src/http/import_zip.rs:113-141 | a failing write leaves the store as it was and reports failure; otherwise the store becomes the upsert of the entry and keeps one journal per date |
| ImportZip.ImportFoldNext | src/http/import_zip.rs:112-150 | one more entry upserts it unless its write fails, and a failed write appends one "db insert failed" skip |
| ImportZip.ImportEntries | src/http/import_zip.rs:108-150 | the store keeps its invariant and changes as `ImportFold` specifies; the imported count and the skip details are those of `ImportedCount` and `ImportSkips` |
| ImportZip.ImportJournalZip | src/http/import_zip.rs:48-175 | a pattern or parse error is returned as is and leaves the store untouched; on success the store is the upsert of every parsed entry whose write succeeds, in order, the skips are the parse skips followed by one per failed write, and total = imported + skipped with imported ≤ matched ≤ total |
| Files.MapChar | src/http/file.rs:190-198 | allowed characters stay, every other becomes `_`, and only `.` maps to `.` |
| Files.LastSegment | src/http/file.rs:182-186 | the last `/` segment holds no `/` |
| Files.SanitizeFileName | src/http/file.rs:181-199 | every character is ASCII alphanumeric, `.`, `-` or `_`, and the name never contains `..` |
| Files.RemoveDotDotNoPair | src/http/file.rs:187 | left-to-right removal of `..` leaves no two adjacent dots |
| Files.SanitizeNoDotPair | src/http/file.rs:181-199 | trimming and the character map add no dots, so the result has no two adjacent dots |
| Files.LastSegmentAfterSeparator | src/http/file.rs:182-186 | after a `/` or a backslash, the last segment is the file name |
| Files.SanitizeKeepsLastSegment | src/http/file.rs:181-189 | only the text after the last `/` or backslash matters |
| Files.SanitizeFixed | src/http/file.rs:181-199 | a name of allowed characters without `..` is its own sanitised form |
| Files.SanitizeIdempotent | src/http/file.rs:181-199 | sanitising twice is sanitising once |
| Files.SplitExtension | src/http/file.rs:206-209 | base and extension concatenate to the name; a non-empty extension is `.` followed by a non-empty, dot-free part, after a non-empty base |
| Files.UniqueNameKeepsExtension | src/http/file.rs:206-216 | a name with an extension keeps it, and the result starts with the base and `_` |
| Files.UniqueNameWithoutExtension | src/http/file.rs:206-216 | a name without an extension is kept whole, followed by `_`, and the result ends with `_` and the counter |
| Files.UniqueNameInjective | src/http/file.rs:211-216 | distinct counter values give distinct names for the same name and time |
| Files.UniqueNameAllowed | src/http/file.rs:211-216 | the stamp adds only digits and `_`, so a sanitised name stays in the allowed characters |
| Files.FileSeq.UniqueFileName | src/http/file.rs:201-217 | returns the unique name of the current counter value; an empty name leaves the counter alone, any other advances it by one modulo 2^64 |
| Files.TwoUniqueNamesDiffer | src/http/file.rs:201-217 | two calls with the same name and time return different names |
| Files.ResolveTarget | src/http/file.rs:146-164 | `image/*` is picture, `video/*` is media, anything else or nothing is file, each with its directory and URI prefix |
| ImportExample.DefaultPatterns | src/http/settings.rs:173-192 | with the default tokens the patterns are `{yyyy}/{MM}/{dd}.md`, `{yyyy}/{MM}-{dd}.md`, `{yyyy}-{MM}-{dd}.md` and `{yyyy}_{MM}_{dd}.md` |
| ImportExample.SlashTemplate | src/http/settings.rs:175-178 | the first default pattern is year, month and day-with-`.md` as three segments |
| ImportExample.DashTemplate | src/http/settings.rs:183-186 | the third default pattern is year, month and day joined by `-`, then `.md`, as one segment |
| ImportExample.SlashRendered | src/http/settings.rs:175-178 | the first default pattern renders a date `yyyy-MM-dd` as `yyyy/MM/dd.md` |
| ImportExample.DashRendered | src/http/settings.rs:183-186 | the third default pattern renders a date as the date followed by `.md` |
| ImportExample.SlashMatch | src/http/import_zip.rs:308-343 | `yyyy/MM/dd.md` matches the first default pattern and yields the date |
| ImportExample.DashMatch | src/http/import_zip.rs:308-343 | `yyyy-MM-dd.md` matches the third default pattern and yields the date |
| ImportExample.OneSegmentTooShort | src/http/import_zip.rs:316-322 | a path without `/` fails against a pattern of several segments as too short |
| ImportExample.FirstPatternParts | src/http/settings.rs:175-178 | the first default pattern splits into year, month and day-with-`.md`, none holding `/` |
| ImportExample.SecondPatternParts | src/http/settings.rs:179-182 | the second default pattern splits into year and month-day-with-`.md`, neither holding `/` |
| ImportExample.ExtractThird | src/http/import_zip.rs:293-306 | when the first two patterns fail and the third matches, extraction yields the third's date |
| ImportExample.ExtractSlash | src/http/import_zip.rs:293-306 | `yyyy/MM/dd.md` yields its date under the default patterns |
| ImportExample.ExtractDash | src/http/import_zip.rs:293-306 | `yyyy-MM-dd.md` is too short for the first two default patterns and yields its date by the third |
| ImportExample.LowerMd | src/http/import_zip.rs:255 | a name ending in lower-case `.md` passes the Markdown test |
| ImportExample.DatedName | src/http/import_zip.rs:254-257 | both dated paths are already normalised and count as Markdown |
| ImportExample.NotesName | src/http/import_zip.rs:254-257 | `notes.txt` is normalised as it is and is not Markdown |
| ImportExample.OtherStep | src/http/import_zip.rs:255-257 | a file that is not Markdown leaves the loop state unchanged |
| ImportExample.DatedStep | src/http/import_zip.rs:258-282 | a Markdown file whose path yields a date is counted and appended with its path, date and content |
| ImportExample.ParseTwoDatedOneOther | src/http/import_zip.rs:234-291 | two dated Markdown files and one other file: total 2, matched 2, both entries in order, nothing skipped |
| ImportExample.ZipExample | src/http/import_zip.rs:234-291 | for any two dates, the archive `yyyy/MM/dd.md`, `yyyy-MM-dd.md`, `notes.txt` under the default patterns gives total 2, matched 2, the two entries in order with their dates and contents, and no skips; this holds for every placeholder set with distinct, plain, `/`-free date tokens, the default set among them (for instance `2024/03/05.md` and `2024-03-06.md`) |

## Left out

- The git2 operations are not modelled: clone, fetch, fast-forward, commit and push, with their credential callbacks and the body of `execute_sync`. They are foreign library calls doing network and working-tree I/O.
- The filesystem is not modelled. The directory walk arrives as a list of relative paths, and file contents as `Option` values (`None` when a read fails). `HOME` and the existence of the key file are parameters. `RepoScan.ReadFailed` carries the relative path where the source message shows the joined full path and the I/O error.
- Zip decoding is not modelled. An archive is `Option<seq<ZipEntry>>`, `None` meaning "invalid zip file", with per-entry read failures and contents given.
- `String::from_utf8_lossy` and `serde_json` parsing are not modelled. Each JSON parse is an input: `json` in `ImportZip.NormalizePatterns`, and `Stored.Unparsable` for settings rows.
- The clock is not modelled. Epoch seconds and milliseconds are parameters.
- The database is not modelled. The journal table and the settings rows are in-memory state. Which writes fail is given as a set: `failing` keys in Settings, `failing` entry indices in ImportZip. SQLite's autoincrement is the `nextId` counter.
- `Journals.ListPaging` and the other list lemmas specify `LIMIT`/`OFFSET` on the selection; `i64` overflow of `(page-1)*size` cannot occur within the clamped ranges and is not modelled.
- The axum handlers, multipart reading and the response envelope are not modelled; results are `Result` values with the source's message strings where the model needs them.
- The routing and port retry of the server, the startup wiring, and the async file helpers with SHA-256 hashing are not part of this model.
- `upload_file` is not modelled: multipart reading, hashing, the database de-duplication and the file writes. Its pure parts are: `sanitize_file_name`, `unique_file_name` and `resolve_target`.
- Concurrency is not modelled: `spawn_blocking`, the atomic ordering of `FILE_SEQ`. `Files.FileSeq` is a sequential counter.
- `tracing` logging is not modelled.
- The startup import's upsert loop (src/http/repo_sync.rs:134-173) is not modelled. For each scanned entry it selects the row of the date and then updates or inserts it. A failed select aborts the startup import with an error. A failed write only logs a warning and is not counted. The upsert of one entry is the one Journals.CreateJournal models, and the counting of failed writes is the one ImportZip.ImportEntries models for the zip import.
- The formatting of skip reasons and of `skipped_paths` (`"{path} ({reason})"`) is not modelled; a skip keeps its structured reason.
- Failing `serde_json::to_string` calls in `update_settings` cannot fail for these types and are not modelled.
- Calendar.NowDateTokens: the clock is a parameter, the `u64` seconds since the epoch. The `as i64` cast of those seconds is modelled by CivilDays.AsI64, with its wrap-around. The `unwrap_or(0)` for a clock before 1970 is not modelled; the caller passes 0 in that case.
- Matcher.ValidDatePartsDigits: states `valid_date_parts` for values of at most nine digits; longer digit strings never reach it in a successful match, because the slots hold four- and two-digit values.
- Journals.Utf8LenAscii: `date.len()` counts UTF-8 bytes; the model counts them with `Utf8Len`, and the lemma relates it to the character count only for ASCII.
- Config.DbPath: states only a length bound. The exact value for inputs without stray slashes is the content of Config.JoinCollapsePlain.
- Config.MediaPath: states the trailing `/` and a length bound. The exact value follows from Config.JoinCollapsePlain in the same way.
- Config.PicturePath: states the trailing `/` and a length bound, as for MediaPath.
- Config.FilePath: states the trailing `/` and a length bound, as for MediaPath.
