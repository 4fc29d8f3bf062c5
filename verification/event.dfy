/**
  The input router: one key event, read in the light of the current state,
  becomes the next application state (and, when a session is ended from the
  keyboard, the next output directory).
 */
module Event {
  import opened Optional
  import opened Chars
  import opened Words
  import opened Numbers
  import opened Config
  import opened Persistence
  import opened AppLogic

  datatype KeyEventKind = Press | Repeat | Release

  /** The key codes the handlers tell apart; `OtherKey` stands for every other key
      of the terminal driver (arrows, function keys, Tab, ...), which no handler reacts to. */
  datatype KeyCode = Char(c: char) | Enter | Esc | Backspace | OtherKey

  datatype KeyModifier = Shift | Control | Alt | Super | Hyper | Meta

  type KeyModifiers = set<KeyModifier>

  /** What the recent-panel guards compare the first recent entry with. It ends
      in a full stop and the placeholder `NoRecentSession` does not, so the
      guards never recognise the placeholder. */
  const NoRecentSessionGuard: string := "There's no recent session."

  /** `!app.recent_files.is_empty() && app.recent_files[0] != "There's no recent session."` */
  function RecentBrowsable(app: App): (browsable: bool)
    ensures browsable ==> |app.recentFiles| > 0
    ensures app.recentFiles == [NoRecentSession] ==> browsable
  {
    |app.recentFiles| > 0 && app.recentFiles[0] != NoRecentSessionGuard
  }

  /** `handle_event`: only key presses are acted on, and a quitting application ignores them. */
  function HandleEvent(app: App, fs: Store, clock: Clock, kind: KeyEventKind, code: KeyCode, mods: KeyModifiers): (r: Step)
    requires Valid(app)
    ensures Valid(r.app)
    ensures kind != Press || app.state.Quitting? ==> r == Step(app, fs)
    ensures r.fs != fs ==> app.state.Freewrite? && code == Esc
    ensures r.fs == fs || r.fs == SaveText(fs, clock.local, app.text).fs
  {
    if kind != Press then Step(app, fs)
    else match app.state
      case MainMenu => Step(HandleMainMenuEvent(app, fs, clock.now, code), fs)
      case Freewrite => HandleFreewriteEvent(app, fs, clock, code, mods)
      case SessionEnd(_, _, _) => Step(HandleSessionEndEvent(app, fs, code), fs)
      case CustomDurationInput => Step(HandleCustomDurationInputEvent(app, clock.now, code), fs)
      case Quitting => Step(app, fs)
  }

  /** The keys the main menu reacts to; every other key is ignored there. */
  const MainMenuKeys: set<KeyCode> := {Char('q'), Char('Q'), Char('h'), Char('l'), Char('j'), Char('k'), Enter}

  /** `handle_main_menu_event`. */
  function HandleMainMenuEvent(app: App, fs: Store, now: nat, code: KeyCode): (r: App)
    requires Valid(app) && app.state.MainMenu?
    ensures Valid(r)
    ensures r.state.MainMenu? || r.state.Quitting? || r.state.Freewrite? || r.state.CustomDurationInput?
    ensures code !in MainMenuKeys ==> r == app
  {
    match code
    case Char('q') => app.(state := Quitting)
    case Char('Q') => app.(state := Quitting)
    case Char('h') => app.(panelFocus := Sessions, displayedFileContent := None)
    case Char('l') =>
      var focused := app.(panelFocus := Recent);
      if RecentBrowsable(focused) then
        LoadFileContentFromName(focused, fs, focused.recentFiles[focused.selectedRecentIndex])
      else
        focused.(displayedFileContent := None)
    case Char('j') =>
      (match app.panelFocus
       case Sessions => app.(selectedMenuIndex := (app.selectedMenuIndex + 1) % |app.menuItems|)
       case Recent =>
         if RecentBrowsable(app) then
           var moved := app.(selectedRecentIndex := (app.selectedRecentIndex + 1) % |app.recentFiles|);
           LoadFileContentFromName(moved, fs, moved.recentFiles[moved.selectedRecentIndex])
         else app)
    case Char('k') =>
      (match app.panelFocus
       case Sessions =>
         app.(selectedMenuIndex := (app.selectedMenuIndex + |app.menuItems| - 1) % |app.menuItems|)
       case Recent =>
         if RecentBrowsable(app) then
           var moved := app.(selectedRecentIndex :=
                               (app.selectedRecentIndex + |app.recentFiles| - 1) % |app.recentFiles|);
           LoadFileContentFromName(moved, fs, moved.recentFiles[moved.selectedRecentIndex])
         else app)
    case Enter =>
      (match app.panelFocus
       case Sessions =>
         var duration := app.menuItems[app.selectedMenuIndex].ToDuration();
         if duration == 0 then
           app.(customDurationInputText := [], state := CustomDurationInput)
         else
           StartSession(app, duration, now)
       case Recent => app)
    case _ => app
  }

  /** `handle_freewrite_event`. */
  function HandleFreewriteEvent(app: App, fs: Store, clock: Clock, code: KeyCode, mods: KeyModifiers): (r: Step)
    requires Valid(app) && app.state.Freewrite?
    ensures Valid(r.app)
  {
    if code == Char('c') && Control in mods then
      Step(app.(state := Quitting), fs)
    else match code
      case Esc =>
        var ended := EndSession(app, fs, clock);
        Step(ResetToMainMenu(ended.app, ended.fs), ended.fs)
      case Backspace =>
        if |app.text| > 0 then Step(app.(text := app.text[..|app.text| - 1]), fs) else Step(app, fs)
      case Enter => Step(app.(text := app.text + ['\n']), fs)
      case Char(c) => if !IsControl(c) then Step(app.(text := app.text + [c]), fs) else Step(app, fs)
      case OtherKey => Step(app, fs)
  }

  /** `handle_session_end_event`. */
  function HandleSessionEndEvent(app: App, fs: Store, code: KeyCode): (r: App)
    requires Valid(app) && app.state.SessionEnd?
    ensures Valid(r)
  {
    match code
    case Enter => ResetToMainMenu(app, fs)
    case Char('q') => app.(state := Quitting)
    case Char('Q') => app.(state := Quitting)
    case _ => app
  }

  /** The session length, in minutes, that confirming the custom buffer asks for:
      the parsed number, or the default when the buffer does not parse. */
  function CustomDurationMinutes(buffer: string): (minutes: nat)
    ensures minutes <= U64Max
    ensures AllWhitespace(buffer) ==> minutes == DefaultSessionDurationMins
  {
    match ParseTrimmedU64(buffer)
    case Some(v) => v
    case None => DefaultSessionDurationMins
  }

  /** On a buffer of digits: a non-empty buffer whose value fits in 64 bits is
      taken at its value (zero included), anything else falls back to the default. */
  lemma CustomDurationOfDigits(buffer: string)
    requires AllAsciiDigits(buffer)
    ensures |buffer| > 0 && DecimalValue(buffer) <= U64Max ==> CustomDurationMinutes(buffer) == DecimalValue(buffer)
    ensures |buffer| == 0 || DecimalValue(buffer) > U64Max ==> CustomDurationMinutes(buffer) == DefaultSessionDurationMins
  {
    ParseDigits(buffer);
  }

  /** `handle_custom_duration_input_event`. */
  function HandleCustomDurationInputEvent(app: App, now: nat, code: KeyCode): (r: App)
    requires Valid(app) && app.state.CustomDurationInput?
    ensures Valid(r)
    ensures code == OtherKey || (code.Char? && !IsAsciiDigit(code.c)) ==> r == app
  {
    match code
    case Enter =>
      StartSession(app, CustomDurationMinutes(app.customDurationInputText), now).(customDurationInputText := [])
    case Esc => app.(state := MainMenu, customDurationInputText := [])
    case Backspace =>
      var buffer := app.customDurationInputText;
      if |buffer| > 0 then app.(customDurationInputText := buffer[..|buffer| - 1]) else app
    case Char(c) =>
      if IsAsciiDigit(c) then app.(customDurationInputText := app.customDurationInputText + [c]) else app
    case OtherKey => app
  }

  // ---------------------------------------------------------------------------
  // Properties of the router
  // ---------------------------------------------------------------------------

  /** In the summary screen only `Enter` (back to a fresh menu) and `q`/`Q` (quit) do anything. */
  lemma SessionEndKeys(app: App, fs: Store, clock: Clock, code: KeyCode, mods: KeyModifiers)
    requires Valid(app) && app.state.SessionEnd?
    ensures var r := HandleEvent(app, fs, clock, Press, code, mods);
            && r.fs == fs
            && (code == Enter ==> r.app == ResetToMainMenu(app, fs))
            && (code == Char('q') || code == Char('Q') ==> r.app == app.(state := Quitting))
            && (code != Enter && code != Char('q') && code != Char('Q') ==> r.app == app)
  {
  }

  /** In the sessions panel `j` and `k` move the menu cursor down and up with
      wrap-around, stay on the menu, and undo each other. */
  lemma MenuCursorWraps(app: App, fs: Store, clock: Clock, mods: KeyModifiers)
    requires Valid(app) && app.state.MainMenu? && app.panelFocus == Sessions
    ensures var down := HandleEvent(app, fs, clock, Press, Char('j'), mods).app;
            && down == app.(selectedMenuIndex := (app.selectedMenuIndex + 1) % 4)
            && HandleEvent(down, fs, clock, Press, Char('k'), mods).app == app
    ensures var up := HandleEvent(app, fs, clock, Press, Char('k'), mods).app;
            && up == app.(selectedMenuIndex := (app.selectedMenuIndex + 3) % 4)
            && HandleEvent(up, fs, clock, Press, Char('j'), mods).app == app
    ensures app.selectedMenuIndex == 3 ==> HandleEvent(app, fs, clock, Press, Char('j'), mods).app.selectedMenuIndex == 0
    ensures app.selectedMenuIndex == 0 ==> HandleEvent(app, fs, clock, Press, Char('k'), mods).app.selectedMenuIndex == 3
  {
  }

  lemma ModBelow(a: nat, n: nat)
    requires a < n
    ensures a % n == a
  {
  }

  lemma ModOnce(a: nat, n: nat)
    requires n <= a < 2 * n
    ensures a % n == a - n
  {
    assert a == n * 1 + (a - n);
  }

  /** Moving down then up, or up then down, modulo `n` returns to the start. */
  lemma WrapInverse(i: nat, n: nat)
    requires i < n
    ensures ((i + 1) % n + n - 1) % n == i
    ensures ((i + n - 1) % n + 1) % n == i
  {
    if i + 1 < n {
      ModBelow(i + 1, n);
      ModOnce(i + n, n);
    } else {
      ModOnce(i + 1, n);
      ModBelow(n - 1, n);
    }
    if i > 0 {
      ModOnce(i + n - 1, n);
      ModBelow(i, n);
    } else {
      ModBelow(n - 1, n);
      ModOnce(n, n);
    }
  }

  /** In the recent panel `j` moves the recent cursor down with wrap-around,
      previews the newly selected entry, and `k` moves it back. */
  lemma RecentCursorDown(app: App, fs: Store, clock: Clock, mods: KeyModifiers)
    requires Valid(app) && app.state.MainMenu? && app.panelFocus == Recent && RecentBrowsable(app)
    ensures var n := |app.recentFiles|;
            var down := HandleEvent(app, fs, clock, Press, Char('j'), mods).app;
            && down.selectedRecentIndex == (app.selectedRecentIndex + 1) % n
            && down == LoadFileContentFromName(app.(selectedRecentIndex := down.selectedRecentIndex), fs,
                                               app.recentFiles[down.selectedRecentIndex])
            && HandleEvent(down, fs, clock, Press, Char('k'), mods).app.selectedRecentIndex == app.selectedRecentIndex
  {
    var n := |app.recentFiles|;
    var down := HandleEvent(app, fs, clock, Press, Char('j'), mods).app;
    assert down.recentFiles == app.recentFiles && down.panelFocus == Recent && down.state == MainMenu;
    WrapInverse(app.selectedRecentIndex, n);
  }

  /** In the recent panel `k` moves the recent cursor up with wrap-around,
      previews the newly selected entry, and `j` moves it back. */
  lemma RecentCursorUp(app: App, fs: Store, clock: Clock, mods: KeyModifiers)
    requires Valid(app) && app.state.MainMenu? && app.panelFocus == Recent && RecentBrowsable(app)
    ensures var n := |app.recentFiles|;
            var up := HandleEvent(app, fs, clock, Press, Char('k'), mods).app;
            && up.selectedRecentIndex == (app.selectedRecentIndex + n - 1) % n
            && up == LoadFileContentFromName(app.(selectedRecentIndex := up.selectedRecentIndex), fs,
                                             app.recentFiles[up.selectedRecentIndex])
            && HandleEvent(up, fs, clock, Press, Char('j'), mods).app.selectedRecentIndex == app.selectedRecentIndex
  {
    var n := |app.recentFiles|;
    var up := HandleEvent(app, fs, clock, Press, Char('k'), mods).app;
    assert up.recentFiles == app.recentFiles && up.panelFocus == Recent && up.state == MainMenu;
    WrapInverse(app.selectedRecentIndex, n);
  }

  /** When the guard rejects the recent list, `j` and `k` in the recent panel do nothing. */
  lemma RecentCursorGuarded(app: App, fs: Store, clock: Clock, mods: KeyModifiers)
    requires Valid(app) && app.state.MainMenu? && app.panelFocus == Recent && !RecentBrowsable(app)
    ensures HandleEvent(app, fs, clock, Press, Char('j'), mods).app == app
    ensures HandleEvent(app, fs, clock, Press, Char('k'), mods).app == app
  {
  }

  /** `h` focuses the sessions panel and drops the preview; `l` focuses the
      recent panel and previews the selected entry, or an error message when it
      cannot be read. */
  lemma PanelSwitch(app: App, fs: Store, clock: Clock, mods: KeyModifiers)
    requires Valid(app) && app.state.MainMenu?
    ensures HandleEvent(app, fs, clock, Press, Char('h'), mods).app
              == app.(panelFocus := Sessions, displayedFileContent := None)
    ensures var r := HandleEvent(app, fs, clock, Press, Char('l'), mods).app;
            var name := app.recentFiles[app.selectedRecentIndex];
            && r.panelFocus == Recent
            && r == app.(panelFocus := Recent, displayedFileContent := r.displayedFileContent)
            && (!RecentBrowsable(app) ==> r.displayedFileContent == None)
            && (RecentBrowsable(app) && name in fs ==> r.displayedFileContent == Some(fs[name]))
            && (RecentBrowsable(app) && name !in fs ==>
                  r.displayedFileContent == Some(ReadErrorMessage(name, NotFoundDescription)))
  {
  }

  /** With no saved sessions the recent list holds only the placeholder, the
      guard does not recognise it, and `l` tries to read a file of that name. */
  lemma PlaceholderIsLookedUp(now: nat, clock: Clock, mods: KeyModifiers)
    ensures var app := New(map[], now);
            HandleEvent(app, map[], clock, Press, Char('l'), mods).app.displayedFileContent
              == Some(ReadErrorMessage(NoRecentSession, NotFoundDescription))
  {
    var app := New(map[], now);
    assert app.recentFiles == [NoRecentSession];
    assert NoRecentSession != NoRecentSessionGuard by {
      assert |NoRecentSession| != |NoRecentSessionGuard|;
    }
  }

  /** `Enter` in the main menu: on the custom entry it opens the custom-length
      prompt with an empty buffer and starts nothing; on a preset it starts a
      session of that many minutes; on the recent panel it does nothing.
      `q` and `Q` quit. */
  lemma MainMenuConfirmAndQuit(app: App, fs: Store, clock: Clock, mods: KeyModifiers)
    requires Valid(app) && app.state.MainMenu?
    ensures var r := HandleEvent(app, fs, clock, Press, Enter, mods).app;
            var item := app.menuItems[app.selectedMenuIndex];
            && (app.panelFocus == Sessions && item == Custom ==>
                  r == app.(state := CustomDurationInput, customDurationInputText := []))
            && (app.panelFocus == Sessions && item != Custom ==>
                  r.state == Freewrite && r.text == [] && r.startTime == clock.now
                  && r.sessionDuration == item.ToDuration() * 60 && r.sessionDuration > 0
                  && SameMenus(app, r))
            && (app.panelFocus == Recent ==> r == app)
    ensures HandleEvent(app, fs, clock, Press, Char('q'), mods).app == app.(state := Quitting)
    ensures HandleEvent(app, fs, clock, Press, Char('Q'), mods).app == app.(state := Quitting)
  {
  }

  /** Every key the main menu does not list leaves the application and the directory as they were. */
  lemma MainMenuIgnoresOtherKeys(app: App, fs: Store, clock: Clock, code: KeyCode, mods: KeyModifiers)
    requires Valid(app) && app.state.MainMenu? && code !in MainMenuKeys
    ensures HandleEvent(app, fs, clock, Press, code, mods) == Step(app, fs)
  {
  }

  /** The default preset: from a fresh application, `Enter` starts a five-minute (300 s) session on an empty text. */
  lemma DefaultPresetStartsFiveMinutes(fs: Store, created: nat, clock: Clock, mods: KeyModifiers)
    ensures var r := HandleEvent(New(fs, created), fs, clock, Press, Enter, mods).app;
            r.state == Freewrite && r.sessionDuration == 300 && r.text == [] && r.startTime == clock.now
  {
  }

  /** Editing while writing: Ctrl+`c` quits without saving, `Backspace` drops the
      last character, `Enter` adds a newline, a non-control character is added
      (also with Ctrl, unless it is `c`), and every other key changes nothing. */
  lemma FreewriteEditing(app: App, fs: Store, clock: Clock, code: KeyCode, mods: KeyModifiers)
    requires Valid(app) && app.state.Freewrite?
    ensures var r := HandleEvent(app, fs, clock, Press, code, mods);
            && (code == Char('c') && Control in mods ==> r == Step(app.(state := Quitting), fs))
            && (code == Backspace && |app.text| > 0 ==> r == Step(app.(text := app.text[..|app.text| - 1]), fs))
            && (code == Backspace && |app.text| == 0 ==> r == Step(app, fs))
            && (code == Enter ==> r == Step(app.(text := app.text + ['\n']), fs))
            && (code.Char? && !(code.c == 'c' && Control in mods) && !IsControl(code.c) ==>
                  r == Step(app.(text := app.text + [code.c]), fs))
            && (code.Char? && IsControl(code.c) ==> r == Step(app, fs))
            && (code == OtherKey ==> r == Step(app, fs))
  {
  }

  /** While writing, the text only grows by one character or loses its last one;
      the episode keeps its start time and length for as long as it lasts. */
  lemma FreewriteTextDiscipline(app: App, fs: Store, clock: Clock, code: KeyCode, mods: KeyModifiers)
    requires Valid(app) && app.state.Freewrite?
    ensures var r := HandleEvent(app, fs, clock, Press, code, mods).app;
            r.state.Freewrite? ==>
              && r.sessionDuration == app.sessionDuration && r.startTime == app.startTime
              && (r.text == app.text
                  || (|r.text| == |app.text| + 1 && r.text[..|app.text|] == app.text)
                  || (|app.text| > 0 && r.text == app.text[..|app.text| - 1]))
  {
  }

  /** Backspace undoes the typing of a character. */
  lemma BackspaceUndoesTyping(app: App, fs: Store, clock: Clock, c: char, mods: KeyModifiers)
    requires Valid(app) && app.state.Freewrite?
    requires !IsControl(c) && !(c == 'c' && Control in mods)
    ensures var typed := HandleEvent(app, fs, clock, Press, Char(c), mods);
            HandleEvent(typed.app, typed.fs, clock, Press, Backspace, mods) == Step(app, fs)
  {
    var typed := HandleEvent(app, fs, clock, Press, Char(c), mods);
    assert typed.app.text[..|typed.app.text| - 1] == app.text;
  }

  /** `Esc` while writing saves the text exactly once and goes straight back to a
      fresh main menu, so its summary is never shown. */
  lemma EscSavesThenResets(app: App, fs: Store, clock: Clock, mods: KeyModifiers)
    requires Valid(app) && app.state.Freewrite?
    ensures var r := HandleEvent(app, fs, clock, Press, Esc, mods);
            && r.fs == SaveText(fs, clock.local, app.text).fs
            && ReadToString(r.fs, SessionFileName(clock.local)) == Read(app.text)
            && r.app.state == MainMenu && r.app.text == []
            && r.app.displayedFileContent == None && r.app.panelFocus == Sessions
            && r.app.selectedMenuIndex == 0 && r.app.selectedRecentIndex == 0
            && r.app.recentFiles == RecentFiles(r.fs)
  {
  }

  /** Outside a writing session the text is never edited: at most it is cleared. */
  lemma TextOnlyEditedWhileWriting(app: App, fs: Store, clock: Clock, kind: KeyEventKind, code: KeyCode, mods: KeyModifiers)
    requires Valid(app) && !app.state.Freewrite?
    ensures var r := HandleEvent(app, fs, clock, kind, code, mods).app;
            r.text == app.text || r.text == []
  {
  }

  /** The custom-length prompt: digits are added, other characters ignored,
      `Backspace` drops the last digit, `Esc` returns to the menu with an empty
      buffer and no session, and `Enter` starts a session of the parsed (or
      default) number of minutes and empties the buffer. */
  lemma CustomDurationKeys(app: App, fs: Store, clock: Clock, code: KeyCode, mods: KeyModifiers)
    requires Valid(app) && app.state.CustomDurationInput?
    ensures var r := HandleEvent(app, fs, clock, Press, code, mods);
            var buffer := app.customDurationInputText;
            && r.fs == fs
            && (code.Char? && IsAsciiDigit(code.c) ==> r.app == app.(customDurationInputText := buffer + [code.c]))
            && (code.Char? && !IsAsciiDigit(code.c) ==> r.app == app)
            && (code == Backspace && |buffer| > 0 ==> r.app == app.(customDurationInputText := buffer[..|buffer| - 1]))
            && (code == Backspace && |buffer| == 0 ==> r.app == app)
            && (code == Esc ==> r.app == app.(state := MainMenu, customDurationInputText := []))
            && (code == OtherKey ==> r.app == app)
            && (code == Enter ==>
                  && r.app.state == Freewrite && r.app.text == [] && r.app.startTime == clock.now
                  && r.app.customDurationInputText == []
                  && (|buffer| == 0 ==> r.app.sessionDuration == DefaultSessionDurationMins * 60)
                  && (|buffer| > 0 && DecimalValue(buffer) <= U64Max ==>
                        r.app.sessionDuration == DecimalValue(buffer) * 60))
  {
    CustomDurationOfDigits(app.customDurationInputText);
  }

  /** `Enter` in the custom prompt starts a session of the minutes the buffer
      asks for; a buffer of digits too large for 64 bits falls back to 5 minutes. */
  lemma CustomEnterStartsParsedSession(app: App, fs: Store, clock: Clock, mods: KeyModifiers)
    requires Valid(app) && app.state.CustomDurationInput?
    ensures var r := HandleEvent(app, fs, clock, Press, Enter, mods);
            r.app == StartSession(app, CustomDurationMinutes(app.customDurationInputText), clock.now)
                       .(customDurationInputText := [])
    ensures var r := HandleEvent(app, fs, clock, Press, Enter, mods);
            var buffer := app.customDurationInputText;
            |buffer| > 0 && DecimalValue(buffer) > U64Max ==>
              r.app.sessionDuration == DefaultSessionDurationMins * 60
  {
    CustomDurationOfDigits(app.customDurationInputText);
    var r := HandleEvent(app, fs, clock, Press, Enter, mods);
    assert r.app == HandleCustomDurationInputEvent(app, clock.now, Enter);
  }

  /** Confirming `"0"` starts a zero-length session, which the next tick ends at once. */
  lemma CustomZeroEndsAtOnce(app: App, fs: Store, clock: Clock, mods: KeyModifiers)
    requires Valid(app) && app.state.CustomDurationInput? && app.customDurationInputText == "0"
    ensures var r := HandleEvent(app, fs, clock, Press, Enter, mods).app;
            && r.state == Freewrite && r.sessionDuration == 0
            && Update(r, fs, clock).app.state.SessionEnd?
  {
    assert DecimalValue("0") == 0;
    CustomDurationOfDigits("0");
    assert CustomDurationMinutes("0") == 0;
    CustomEnterStartsParsedSession(app, fs, clock, mods);
    var r := HandleEvent(app, fs, clock, Press, Enter, mods).app;
    assert r == StartSession(app, 0, clock.now).(customDurationInputText := []);
    assert Expired(r, clock.now);
  }

  /** Only the ASCII digits of `s`, in order. */
  function DigitsOf(s: string): (d: string)
    ensures AllAsciiDigits(d) && |d| <= |s|
  {
    if |s| == 0 then []
    else (if IsAsciiDigit(s[0]) then [s[0]] else []) + DigitsOf(s[1..])
  }

  /** The application after the characters of `s` are pressed one by one, without modifiers. */
  function TypeChars(app: App, fs: Store, clock: Clock, s: string): (r: App)
    requires Valid(app)
    ensures Valid(r)
    decreases |s|
  {
    if |s| == 0 then app
    else TypeChars(HandleEvent(app, fs, clock, Press, Char(s[0]), {}).app, fs, clock, s[1..])
  }

  /** Typing into the custom-length prompt keeps exactly the digits typed. */
  lemma {:induction false} CustomPromptKeepsDigits(app: App, fs: Store, clock: Clock, s: string)
    requires Valid(app) && app.state.CustomDurationInput?
    ensures TypeChars(app, fs, clock, s)
              == app.(customDurationInputText := app.customDurationInputText + DigitsOf(s))
    decreases |s|
  {
    if |s| > 0 {
      var next := HandleEvent(app, fs, clock, Press, Char(s[0]), {}).app;
      CustomPromptKeepsDigits(next, fs, clock, s[1..]);
      assert app.customDurationInputText + DigitsOf(s)
          == next.customDurationInputText + DigitsOf(s[1..]);
    }
  }

  /** Typing `12a3` into an empty prompt leaves `123`. */
  lemma CustomPromptExample(app: App, fs: Store, clock: Clock)
    requires Valid(app) && app.state.CustomDurationInput? && app.customDurationInputText == []
    ensures TypeChars(app, fs, clock, "12a3").customDurationInputText == "123"
  {
    CustomPromptKeepsDigits(app, fs, clock, "12a3");
    assert DigitsOf("12a3") == "123";
  }

  predicate Printable(s: string) {
    forall i :: 0 <= i < |s| ==> !IsControl(s[i])
  }

  /** Typing printable characters while writing appends them to the text verbatim. */
  lemma {:induction false} TypingAppends(app: App, fs: Store, clock: Clock, s: string)
    requires Valid(app) && app.state.Freewrite? && Printable(s)
    ensures TypeChars(app, fs, clock, s) == app.(text := app.text + s)
    decreases |s|
  {
    if |s| > 0 {
      var next := HandleEvent(app, fs, clock, Press, Char(s[0]), {}).app;
      assert next == app.(text := app.text + [s[0]]);
      TypingAppends(next, fs, clock, s[1..]);
      assert app.text + [s[0]] + s[1..] == app.text + s;
    }
  }

  lemma TwoWords()
    ensures WordCount("hi there") == 2
  {
    var s := "hi there";
    assert WordLength(s[3..]) == 5;
    assert s[3..][5..] == [] && s[3..][..5] == "there";
    assert SplitWhitespace(s[3..]) == ["there"];
    assert s[2..][1..] == s[3..];
    assert SplitWhitespace(s[2..]) == ["there"];
    assert WordLength(s) == 2;
    assert s[..2] == "hi";
    assert SplitWhitespace(s) == ["hi", "there"];
    DropEmptyKeepsNonEmpty(SplitWhitespace(s));
  }

  /** Type `hi there` into a fresh session and let the full length pass: the
      tick ends the session with a count of two words and saves the text. */
  lemma WritingScenario(app: App, fs: Store, start: Clock, later: Clock)
    requires Valid(app) && app.state.Freewrite? && app.text == [] && app.startTime == start.now
    requires later.now >= start.now + app.sessionDuration
    ensures var typed := TypeChars(app, fs, start, "hi there");
            var r := Update(typed, fs, later);
            && r.app.state.SessionEnd? && r.app.state.wordCount == 2
            && ReadToString(r.fs, SessionFileName(later.local)) == Read("hi there")
  {
    TypingAppends(app, fs, start, "hi there");
    var typed := TypeChars(app, fs, start, "hi there");
    assert typed == app.(text := "hi there");
    assert typed.state.Freewrite? && Expired(typed, later.now);
    TwoWords();
  }
}
