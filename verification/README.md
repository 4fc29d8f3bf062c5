# freewrite-tui session state machine, in Dafny

This project models the core of `freewrite-tui`, a terminal tool for timed
free writing. The user picks a session length from a menu (5, 10 or 20
minutes, or a custom number of minutes) and writes. When the time is up the
text is saved under a name built from the current minute. The tool then shows
the word count and the words per minute. The main menu also lists the ten
newest saved sessions and previews the selected one.

The model covers three pieces of sequential logic:

- **The application record and its lifecycle** (`src/app_logic.rs`). This is
  the `App` record with its five states: `MainMenu`, `Freewrite`,
  `SessionEnd`, `Quitting` and `CustomDurationInput`. It also covers word
  counting, starting and ending a session, the per-tick expiry check, returning
  to the menu, the saved-file naming rule and the recent-files listing rule.
- **The input router** (`src/event.rs`). One key event goes to the handler of
  the current state. The result is the next `App`, and the next output
  directory when `Esc` ends a session.
- **The display arithmetic** (`src/ui.rs`). This covers the countdown, the
  scan that places the cursor in the writing area and scrolls it, and the
  cursor column of the custom-length prompt.

Every transition is a total function. Time is passed in as a `Clock`, which
holds two readings:

- `now`: the monotonic clock, in whole seconds;
- `local`: the local calendar minute, which names the saved files.

The output directory is a `Store`, a map from file name to contents. A
`Step` pairs the next `App` with the next `Store`. The invariant
`AppLogic.Valid` says four things:

- the menu is the fixed four entries, and its cursor is in range;
- the custom-length buffer holds ASCII digits only;
- the recent list is never empty in any state that can browse it;
- the recent cursor is in range in those states.

`New` establishes `Valid`, and every transition keeps it. The source would
panic on an out-of-range index, so the router requires `Valid`.

Modules: `Chars` (character classes), `Words` (word count), `Numbers`
(decimal formatting and `u64` parsing), `StringOrder` (file-name order and
the descending sort), `Config`, `Optional`, `Persistence` (the output
directory), `AppLogic`, `Event`, `Ui` and `EventLoop` (one iteration of the
main loop).

Some behaviours of the code are kept as written. Each is proved, because the
code does it, even where a reader might expect otherwise:

- `start_session` takes minutes and stores `minutes * 60` seconds.
- The custom prompt accepts `"0"`. That starts a zero-minute session, which
  the next tick ends at once (`Event.CustomZeroEndsAtOnce`).
- The recent-list placeholder is `There's no recent session`, with no full
  stop. The router's guards compare against the text with a full stop, so
  they never recognise the placeholder. Pressing `l` with no saved sessions
  therefore tries to read a file called `There's no recent session` and
  previews the read error (`Event.PlaceholderIsLookedUp`).
- `Esc` while writing saves and then resets straight to the main menu. The
  summary is shown only when the timer ends the session
  (`Event.EscSavesThenResets`).
- Words per minute are `(words / whole elapsed seconds) * 60`, or 0 when no
  whole second has passed (`AppLogic.EndSessionSpeed`).

## Model

| member | source | states |
|---|---|---|
| `Chars.IsWhitespace` | src/app_logic.rs:101 | definition, no contract: the Unicode White_Space set that `char::is_whitespace`, `split_whitespace` and `trim` use |
| `Chars.IsControl` | src/event.rs:119 | definition, no contract: `char::is_control`, the code points U+0000 to U+001F and U+007F to U+009F |
| `Words.WordCount` | src/app_logic.rs:99-104 | definition, no contract: the split-and-filter count; `Words.WordCountIsRunCount` ties it to the run count |
| `Numbers.Trim` | src/event.rs:146 | the trimmed text is no longer than the input, neither starts nor ends with whitespace, and is empty exactly when the input is blank; `Numbers.TrimOfDigits` shows it leaves every digit buffer unchanged |
| `Numbers.ParseU64` | src/event.rs:147 | a successful parse never exceeds `u64::MAX`; `Numbers.ParseDigits` gives when it succeeds on a digit buffer and the value it yields |
| `Numbers.ParseTrimmedU64` | src/event.rs:144-147 | a successful parse never exceeds `u64::MAX`, and a blank buffer never parses |
| `Event.CustomDurationMinutes` | src/event.rs:144-148 | the minutes asked for never exceed `u64::MAX`, and a blank buffer falls back to the 5-minute default; `Event.CustomDurationOfDigits` gives the full case split |
| `Event.RecentBrowsable` | src/event.rs:37 | the guard only accepts a non-empty list, and it accepts the lone placeholder, because its text ends in a full stop and the placeholder's does not |
| `Persistence.SessionFileName` | src/app_logic.rs:108-116 | every saved name is at least 16 characters plus the suffix long and ends in `_freewritesession.txt` |
| `Persistence.SessionFilePath` | src/app_logic.rs:108-110 | definition, no contract: the name under `freewrite_sessions/`; `Persistence.SaveText` states it as the returned path |
| `Persistence.NoRecentSession` | src/app_logic.rs:140 | definition, no contract: the placeholder text, with no full stop; `Persistence.RecentFiles` states when it is listed |
| `Ui.Advance` | src/ui.rs:290-301 | one step of the scan moves down at most one row, counting one line per row moved, and it moves down exactly on a newline or on reaching the width, landing in column 0 |
| `Ui.ScanFrom` | src/ui.rs:289-302 | the scan never moves up, moves down at most one row per character, counts one line per row moved, and ends inside the width |
| `Ui.TotalVirtualLines` | src/ui.rs:303-307 | the as-written line total is at least 1, and it is the cursor's row or one more |
| `Chars.IsAsciiDigit` | src/event.rs:163 | definition, no contract: `char::is_ascii_digit`, the characters `0` to `9` |
| `Numbers.ToDecimal` | src/app_logic.rs:109 | Rust's `{}` for an unsigned integer: at least one ASCII digit; `Numbers.DecimalRoundTrip` shows it reads back to the number |
| `Numbers.ZeroPad` | src/app_logic.rs:109 | `{:0w}` padding yields only ASCII digits and at least `w` of them; `Numbers.ZeroPadRoundTrip` gives the exact width and value |
| `Words.DropEmpty` | src/app_logic.rs:102 | the `filter(!is_empty)` step keeps only non-empty pieces and never adds any |
| `StringOrder.Below` | src/app_logic.rs:131 | definition, no contract: the file-name order `cmp` uses, lexicographic on code points; `StringOrder.SortDescending` sorts by it |
| `AppLogic.Expired` | src/app_logic.rs:149 | definition, no contract: the test `elapsed_time >= session_duration`, over whole seconds |
| `AppLogic.ReadErrorMessage` | src/app_logic.rs:186-189 | definition, no contract: the preview text `Error reading file <name>: <error>` |
| `Words.SplitWhitespace` | src/app_logic.rs:100-101 | every piece `split_whitespace` yields is non-empty and contains no Unicode whitespace |
| `Words.DropEmptyKeepsNonEmpty` | src/app_logic.rs:102 | the `filter(!is_empty)` step removes nothing from what `split_whitespace` yields |
| `Words.WordCountIsRunCount` | src/app_logic.rs:99-104 | the word count equals the number of positions that start a maximal run of non-whitespace characters |
| `Words.WordCountZeroIffBlank` | src/app_logic.rs:99-104 | the word count is 0 exactly when the text is empty or all whitespace |
| `Words.WordCountAppend` | src/app_logic.rs:99-104 | typing one character adds a word exactly when a non-whitespace character follows whitespace or starts the text; any other character leaves the count unchanged |
| `AppLogic.MenuItem.ToDuration` | src/app_logic.rs:40-47 | a menu entry reports 0 minutes exactly when it is the custom entry |
| `AppLogic.New` | src/app_logic.rs:74-97 | a new application is valid and starts in the main menu with empty text; its four entries give 5, 10, 20 and 0 minutes; both cursors are 0, the focus is on sessions, the length is 300 s and the recent list comes from the directory |
| `AppLogic.GetWordCount` | src/app_logic.rs:99-104 | the count is zero exactly for blank text |
| `AppLogic.Elapsed` | src/app_logic.rs:147 | elapsed seconds are `now - start`, or 0 for a reading taken before the start |
| `AppLogic.StartSession` | src/app_logic.rs:155-161 | the result is writing with empty text, starts now, lasts `minutes * 60` seconds, and leaves the menus, cursors, preview and custom buffer unchanged |
| `AppLogic.Wpm` | src/app_logic.rs:166-171 | words per minute are never negative, are 0 when no whole second has elapsed, and otherwise satisfy `wpm * secs == words * 60` |
| `AppLogic.EndSession` | src/app_logic.rs:163-178 | the text is saved under the current minute's name and reads back unchanged; the summary holds the saved path, the word count of the text, and the speed `Wpm` gives for that count over the whole elapsed seconds (0 when none has elapsed); the recent list is reloaded from the new directory; every other field, the text, timing, cursors, focus and preview included, is unchanged |
| `AppLogic.EndSessionSpeed` | src/app_logic.rs:166-171 | after at least one whole second, the summary's speed is `words * 60 / secs` for the session's word count |
| `AppLogic.Update` | src/app_logic.rs:145-153 | a tick changes nothing unless the app is writing and the full length has elapsed; in that case it ends the session and saves the text |
| `AppLogic.SessionExpiresAfterItsDuration` | src/app_logic.rs:145-161 | a session of `m` minutes started at `t` is ended by a tick at `t'` exactly when `t' - t >= m * 60`; earlier ticks change nothing |
| `AppLogic.UpdateEndsSessionOnce` | src/app_logic.rs:145-153 | after a tick has ended the session, no later tick changes anything, so a session is saved at most once by the timer |
| `AppLogic.EndSessionListsNewSave` | src/app_logic.rs:163-177 | when the new file's name sorts at or above every stored name, it heads the reloaded recent list |
| `AppLogic.LoadFileContentFromName` | src/app_logic.rs:180-191 | the preview becomes the file's contents when it exists; otherwise it becomes `Error reading file <name>: <error>`; nothing else changes |
| `AppLogic.ResetToMainMenu` | src/app_logic.rs:193-201 | the result is a fresh main menu (empty text, reloaded list, no preview, sessions focus, cursors 0) that keeps the session length, start time and custom buffer, and it is valid whenever the menu and the buffer were |
| `AppLogic.ResetIsIdempotent` | src/app_logic.rs:193-201 | resetting twice is the same as resetting once |
| `Numbers.ZeroPadRoundTrip` | src/app_logic.rs:109 | `{:0w}` of a number below `10^w` takes exactly `w` characters, and reading them back gives the number |
| `Numbers.ParseDigits` | src/event.rs:144-147 | on a buffer of digits, `trim().parse::<u64>()` succeeds exactly when the buffer is non-empty and its value fits in 64 bits, and then yields that value |
| `Numbers.ParseToDecimal` | src/event.rs:144-147 | parsing the decimal text of any 64-bit value gives the value back |
| `Persistence.SessionFileNameRoundTrip` | src/app_logic.rs:107-116 | for a valid calendar minute, the saved name has a fixed length and the minute can be read back out of it |
| `Persistence.SessionFileNameInjective` | src/app_logic.rs:107-116 | two saves get the same name exactly when they happen in the same minute |
| `Persistence.SaveText` | src/app_logic.rs:106-121 | the save writes the text under the minute's name, returns `freewrite_sessions/<name>`, and leaves every other file as it was |
| `Persistence.SaveSameMinuteOverwrites` | src/app_logic.rs:118-119 | a second save in the same minute replaces the first, leaving only the later text |
| `Persistence.ReadToString` | src/app_logic.rs:182 | a read succeeds exactly for stored names, and returns the stored contents |
| `StringOrder.SortDescending` | src/app_logic.rs:131 | the sort lists every name of the set exactly once, in strictly descending order |
| `Persistence.RecentFiles` | src/app_logic.rs:123-143 | the list is never empty and holds at most 10 names; for an empty directory it is exactly the placeholder; otherwise it holds `min(n, 10)` stored names in strictly descending order |
| `Persistence.RecentFilesAreTheNewest` | src/app_logic.rs:131-137 | a stored name is left off the list only when 10 names that sort above it are listed |
| `Persistence.NewestIsListedFirst` | src/app_logic.rs:131-137 | the name that sorts highest heads the list |
| `Event.HandleEvent` | src/event.rs:8-24 | the router keeps the invariant; non-press events change nothing, and neither does a quitting app; only `Esc` while writing touches the directory, and then with exactly one save of the text |
| `Event.HandleMainMenuEvent` | src/event.rs:26-95 | a main-menu key keeps the invariant and leads only to the menu, writing, the custom prompt or quitting; every key other than `q`, `Q`, `h`, `l`, `j`, `k` and `Enter` leaves the application unchanged |
| `Event.HandleFreewriteEvent` | src/event.rs:97-126 | a key while writing keeps the invariant |
| `Event.HandleSessionEndEvent` | src/event.rs:128-138 | a key on the summary screen keeps the invariant |
| `Event.HandleCustomDurationInputEvent` | src/event.rs:140-170 | a key in the custom prompt keeps the invariant, including the digits-only buffer; an unlisted key or a character that is not an ASCII digit leaves the application unchanged |
| `Event.CustomDurationOfDigits` | src/event.rs:144-150 | confirming a digit buffer asks for its value when it is non-empty and fits in 64 bits, zero included; otherwise it asks for the 5-minute default |
| `Event.SessionEndKeys` | src/event.rs:128-138 | on the summary screen `Enter` resets to the menu and `q`/`Q` quit; every other key changes nothing |
| `Event.MenuCursorWraps` | src/event.rs:44-63 | in the sessions panel `j` moves to `(i+1) % 4` and `k` to `(i+3) % 4`; each undoes the other; 3 wraps to 0 and 0 wraps to 3 |
| `Event.WrapInverse` | src/event.rs:44-74 | moving down then up, or up then down, modulo the list length returns to the start index |
| `Event.RecentCursorDown` | src/event.rs:48-57 | in the recent panel `j` moves to `(i+1) % n` and previews that entry; `k` then returns to `i` |
| `Event.RecentCursorUp` | src/event.rs:64-74 | in the recent panel `k` moves to `(i+n-1) % n` and previews that entry; `j` then returns to `i` |
| `Event.RecentCursorGuarded` | src/event.rs:48-74 | when the guard rejects the list, `j` and `k` in the recent panel change nothing |
| `Event.PanelSwitch` | src/event.rs:31-43 | `h` focuses sessions and clears the preview; `l` focuses recent and previews the selected entry (its contents, or the read error), or clears the preview when the guard rejects the list |
| `Event.PlaceholderIsLookedUp` | src/event.rs:35-43 | with an empty directory, `l` previews the read error for a file named after the placeholder, because the guard's text ends in a full stop |
| `Event.MainMenuConfirmAndQuit` | src/event.rs:27-91 | `Enter` on the custom entry opens the prompt with an empty buffer and starts nothing; on a preset it starts a non-zero session of that many minutes; on the recent panel it does nothing; `q`/`Q` quit |
| `Event.MainMenuIgnoresOtherKeys` | src/event.rs:92 | in the main menu, every key other than `q`, `Q`, `h`, `l`, `j`, `k` and `Enter` leaves the application and the directory as they were |
| `Event.DefaultPresetStartsFiveMinutes` | src/event.rs:76-86 | `Enter` on a fresh application starts a 300-second session on empty text |
| `Event.FreewriteEditing` | src/event.rs:102-124 | Ctrl+`c` quits without saving; `Backspace` drops the last character or does nothing on empty text; `Enter` appends a newline; a non-control character is appended, even with Ctrl (unless it is Ctrl+`c`); control characters and other keys change nothing |
| `Event.FreewriteTextDiscipline` | src/event.rs:102-124 | while the app stays in writing, the text only gains one character at the end or loses its last one, and the start time and length never change |
| `Event.BackspaceUndoesTyping` | src/event.rs:110-122 | typing a printable character and then `Backspace` restores the exact previous state |
| `Event.EscSavesThenResets` | src/event.rs:106-109 | `Esc` while writing saves the text exactly once, so it reads back from the directory; it then lands on a fresh main menu with empty text and a recent list reloaded from the new directory |
| `Event.TextOnlyEditedWhileWriting` | src/event.rs:8-24 | outside the writing state a key never edits the text; at most it clears it |
| `Event.CustomDurationKeys` | src/event.rs:140-169 | in the custom prompt digits are appended and other characters ignored; `Backspace` pops a digit; `Esc` returns to the menu with an empty buffer and no session; `Enter` starts a session of the parsed minutes (300 s for an empty buffer, and 300 s when the digits overflow 64 bits, by `Event.CustomEnterStartsParsedSession`) and empties the buffer; any other key changes nothing |
| `Event.CustomEnterStartsParsedSession` | src/event.rs:142-152 | `Enter` in the custom prompt starts a session of the minutes the buffer asks for and empties the buffer; a digit buffer whose value overflows 64 bits gives 300 s |
| `Event.CustomZeroEndsAtOnce` | src/event.rs:142-152 | confirming `"0"` starts a zero-second session, and the tick at the same instant ends it |
| `Event.CustomPromptKeepsDigits` | src/event.rs:161-166 | typing any string into the custom prompt appends exactly its ASCII digits, in order |
| `Event.CustomPromptExample` | src/event.rs:161-166 | typing `12a3` into an empty prompt leaves `123` |
| `Event.TypingAppends` | src/event.rs:118-122 | typing printable characters while writing appends them to the text verbatim |
| `Event.WritingScenario` | src/app_logic.rs:145-176 | typing `hi there` and letting the full length pass ends the session with a count of 2 words and saves `hi there` |
| `Ui.TimeLeft` | src/ui.rs:252-256 | the seconds left never exceed the length, are 0 exactly when the session has expired, and otherwise add up with the elapsed seconds to the length |
| `Ui.SplitMinutes` | src/ui.rs:257-258 | `minutes * 60 + seconds` is the seconds left, with `seconds < 60` |
| `Ui.CountdownZeroIffTickEnds` | src/ui.rs:252-258 | while writing, the countdown shows `00:00` exactly when a tick at the same clock reading ends the session |
| `Ui.ScanMatchesLines` | src/ui.rs:289-302 | the scan ends on the row and column of the line-by-line description: a line of `n` characters fills `n / w` rows and leaves column `n % w`, and each newline starts a row; the line counter advances by exactly as many rows as the cursor moves down |
| `Ui.WritingAreaCursor` | src/ui.rs:283-322 | the loop computes the column and row of the line-by-line description. The column is below the width, or 0 for a zero width. The line total is at least 1. The scroll offset is the smallest that shows the last counted line. The cursor row is at most the area's height |
| `Ui.ScrollOffset` | src/ui.rs:309-313 | the offset never exceeds the line total; the lines left after it fit in the height, and fill it exactly when the area scrolls |
| `Ui.CursorRow` | src/ui.rs:322 | the displayed row plus the offset is the cursor's row; the row is 0 when the offset is larger |
| `Ui.CursorRowCanLeaveArea` | src/ui.rs:303-322 | for the text `"\n"` in a one-row area, the cursor lands on row 1, outside the area |
| `Ui.CorrectedTotalVirtualLines` | src/ui.rs:303-307 | the corrected total differs from the source's only when the cursor ends at the start of a row |
| `Ui.CorrectedCursorRowIsVisible` | src/ui.rs:303-322 | counting the cursor's own row keeps the cursor inside any area at least one row high, and changes nothing for empty text or text that ends mid-row |
| `Ui.Utf8Length` | src/ui.rs:504 | a string's UTF-8 byte length lies between its character count and four times that count, and equals the character count for ASCII text |
| `Ui.PopupCursorColumn` | src/ui.rs:504 | the prompt cursor sits just past the typed text; for a buffer of digits that is `x + 1 + number of digits` |
| `EventLoop.Iterate` | src/main.rs:27-55 | one loop iteration (optional key, then tick) keeps the invariant, and a quitting app stays as it is |
| `EventLoop.IterateWritesOneFile` | src/main.rs:36-49 | an iteration changes at most one file, the one named after the current minute; every other file keeps its name and contents, because a session ended by `Esc` has already left the writing state when the tick runs |
| `EventLoop.Run` | src/main.rs:27-55 | the loop keeps the invariant and never removes a saved file |
| `EventLoop.RunKeepsFiles` | src/main.rs:27-55 | a file present before the loop is still present afterwards with the same contents whenever no iteration's minute gives a save its name |

## Left out

- Rendering in `src/ui.rs` is not modelled. This covers layouts, styles, widgets, ASCII art, status-line formatting and the colour constants of `src/config.rs`. The cursor scan is not claimed to match ratatui's own word wrapping.
- Terminal handling in `src/main.rs` is not modelled: raw mode, the alternate screen and the 100 ms poll timing. One loop iteration is modelled as an optional key event followed by a tick.
- The file system is an abstract store of regular files with UTF-8 names. Directory creation, `read_dir` failures, non-file entries and names that are not UTF-8 are not modelled. Each of them only removes entries from the listing or turns into a read error. The exceptions are a failed directory creation and a non-file entry that has the save's name: either makes the save panic (next item).
- Panics are not modelled. The `expect` on a failed directory creation or write is one. An out-of-range index is another; the `Valid` invariant excludes it and is required by the router.
- Read errors other than a missing file are not modelled, for example permissions or contents that are not UTF-8. The missing-file description is the Linux wording and is treated as opaque text.
- The clocks are not modelled. `Instant` becomes whole seconds and `chrono::Local::now()` becomes a calendar-minute record, both passed in as parameters.
- `AppLogic.Update`: compares whole elapsed seconds with the length. The source compares full-precision durations, so the model ends a session at the first whole-second reading at or after expiry.
- `AppLogic.Wpm`: uses exact real division where the source uses `f64`, so rounding is not modelled.
- `AppLogic.StartSession`: does not model the 64-bit overflow of `minutes * 60`. A custom entry above `u64::MAX / 60` overflows, panicking in debug builds and wrapping in release builds.
- `Ui.WritingAreaCursor`: uses unbounded counters where the source uses `u16` ones. Overflow on texts of more than 65535 rows is not modelled.
- `Ui.PopupCursorColumn`: does not model the `as u16` truncation or the `u16` addition overflow.
- `Persistence.SessionFileNameRoundTrip`: holds only for years 0 to 9999 and in-range calendar fields. Negative years, which `chrono` allows, are not modelled, because the year is a natural number.
- `last_save_time` is not modelled: it is written but never read.
- The `MenuItem::to_string` labels are not modelled: they are display text only.
- `src/lib.rs` is not modelled: it only re-exports.

## Findings

| source | as written | input that shows it | evidently intended | confidence | as-written member | corrected member |
|---|---|---|---|---|---|---|
| src/ui.rs:303-322 | `total_virtual_lines` counts the cursor's row only when `cursor_x > 0`. When the text ends in a newline, or exactly fills a row, the cursor sits on a row the total leaves out, and scrolling does not bring that row into view | text `"\n"`, inner width 10, inner height 1: the cursor row is 1, which is the bottom border rather than the text area | always count the cursor's row (`cursor_y + 1` lines), so that the cursor row stays below the area's height | medium; not executed | `Ui.CursorRowCanLeaveArea` | `Ui.CorrectedCursorRowIsVisible` |

`Ui.WritingAreaCursor` keeps the source's line count, because it models what
the code computes. Nothing else in the model depends on the line count.
`Ui.CorrectedTotalVirtualLines` is the corrected count. It agrees with the
source's count except in the cases the finding describes.
