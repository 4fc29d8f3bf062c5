/**
  The application record and its lifecycle: creating it, starting a timed
  session, ending it (save, count, speed), the per-tick expiry check, loading
  a saved session for preview, and returning to the main menu.

  The monotonic clock is a number of whole seconds passed in as `now`; the
  local wall clock used to name saved files is a `DateTime` passed in beside it.
  The output directory is the `Store` of the persistence module.
 */
module AppLogic {
  import opened Optional
  import opened Chars
  import opened Words
  import opened Config
  import opened StringOrder
  import opened Persistence

  datatype AppState =
    | MainMenu
    | Freewrite
    | SessionEnd(finalFilename: string, wordCount: nat, wpm: real)
    | Quitting
    | CustomDurationInput

  datatype MenuItem = Minute5 | Minute10 | Minute20 | Custom {
    /** Session length in minutes; the custom entry has none and reports 0. */
    function ToDuration(): (minutes: nat)
      ensures minutes == 0 <==> this == Custom
    {
      match this
      case Minute5 => 5
      case Minute10 => 10
      case Minute20 => 20
      case Custom => 0
    }
  }

  datatype PanelFocus = Sessions | Recent

  datatype App = App(
    text: string,
    startTime: nat,          // monotonic clock reading, in seconds, when the session began
    sessionDuration: nat,    // in seconds
    state: AppState,
    menuItems: seq<MenuItem>,
    selectedMenuIndex: nat,
    recentFiles: seq<string>,
    selectedRecentIndex: nat,
    panelFocus: PanelFocus,
    displayedFileContent: Option<string>,
    customDurationInputText: string)

  /** The two clocks the application reads: monotonic seconds and the local calendar minute. */
  datatype Clock = Clock(now: nat, local: DateTime)

  /** The application together with the output directory after an operation. */
  datatype Step = Step(app: App, fs: Store)

  const MenuItems: seq<MenuItem> := [Minute5, Minute10, Minute20, Custom]

  /** The invariant every transition keeps: the fixed menu with its cursor in
      range, a custom-length buffer of digits only, and, in every state that can
      browse or return to the menu without a reload, a non-empty recent list with
      its cursor in range. */
  predicate Valid(app: App) {
    && app.menuItems == MenuItems
    && app.selectedMenuIndex < |app.menuItems|
    && AllAsciiDigits(app.customDurationInputText)
    && (app.state.MainMenu? || app.state.CustomDurationInput? || app.state.Freewrite? ==>
          0 < |app.recentFiles| && app.selectedRecentIndex < |app.recentFiles|)
  }

  /** Everything the main menu shows is the same in `a` and `b`. */
  predicate SameMenus(a: App, b: App) {
    && a.menuItems == b.menuItems
    && a.selectedMenuIndex == b.selectedMenuIndex
    && a.recentFiles == b.recentFiles
    && a.selectedRecentIndex == b.selectedRecentIndex
    && a.panelFocus == b.panelFocus
    && a.displayedFileContent == b.displayedFileContent
    && a.customDurationInputText == b.customDurationInputText
  }

  /** `App::new`. */
  function New(fs: Store, now: nat): (app: App)
    ensures Valid(app)
    ensures app.state == MainMenu && app.text == []
    ensures |app.menuItems| == 4
    ensures app.menuItems[0].ToDuration() == 5 && app.menuItems[1].ToDuration() == 10
    ensures app.menuItems[2].ToDuration() == 20 && app.menuItems[3].ToDuration() == 0
    ensures app.selectedMenuIndex == 0 && app.selectedRecentIndex == 0 && app.panelFocus == Sessions
    ensures app.sessionDuration == DefaultSessionDurationMins * 60
    ensures app.recentFiles == RecentFiles(fs) && app.displayedFileContent == None
  {
    App(
      text := [],
      startTime := now,
      sessionDuration := DefaultSessionDurationMins * 60,
      state := MainMenu,
      menuItems := MenuItems,
      selectedMenuIndex := 0,
      recentFiles := RecentFiles(fs),
      selectedRecentIndex := 0,
      panelFocus := Sessions,
      displayedFileContent := None,
      customDurationInputText := [])
  }

  /** `get_word_count`. */
  function GetWordCount(app: App): (n: nat)
    ensures n == 0 <==> AllWhitespace(app.text)
  {
    WordCountZeroIffBlank(app.text);
    WordCount(app.text)
  }

  /** `Instant::elapsed` in whole seconds; a reading before the start saturates to zero. */
  function Elapsed(app: App, now: nat): (secs: nat)
    ensures now >= app.startTime ==> secs + app.startTime == now
    ensures now <= app.startTime ==> secs == 0
  {
    if now >= app.startTime then now - app.startTime else 0
  }

  /** The session has run for its full length. */
  predicate Expired(app: App, now: nat) {
    Elapsed(app, now) >= app.sessionDuration
  }

  /** `start_session`: the argument is in minutes and the stored length in seconds. */
  function StartSession(app: App, durationMinutes: nat, now: nat): (r: App)
    ensures r.state == Freewrite && r.text == []
    ensures r.startTime == now && r.sessionDuration == durationMinutes * 60
    ensures Elapsed(r, now) == 0
    ensures SameMenus(app, r)
  {
    app.(text := [], startTime := now, sessionDuration := durationMinutes * 60, state := Freewrite)
  }

  /** Words per minute as `end_session` computes it, over whole elapsed seconds. */
  function Wpm(wordCount: nat, secs: nat): (wpm: real)
    ensures wpm >= 0.0
    ensures secs == 0 ==> wpm == 0.0
    ensures secs > 0 ==> wpm * (secs as real) == (wordCount as real) * 60.0
  {
    if secs > 0 then (wordCount as real / secs as real) * 60.0 else 0.0
  }

  /** Over a positive number of seconds the speed is the word count per minute. */
  lemma WpmIsRate(words: nat, secs: nat)
    requires secs > 0
    ensures Wpm(words, secs) == (words as real) * 60.0 / (secs as real)
  {
  }

  /** `end_session`: save the text, then report its word count and speed and reload the recent list. */
  function EndSession(app: App, fs: Store, clock: Clock): (r: Step)
    ensures r.fs == SaveText(fs, clock.local, app.text).fs
    ensures ReadToString(r.fs, SessionFileName(clock.local)) == Read(app.text)
    ensures r.app.state.SessionEnd?
    ensures r.app.state.finalFilename == SessionFilePath(clock.local)
    ensures r.app.state.wordCount == WordCount(app.text)
    ensures r.app.state.wpm >= 0.0
    ensures Elapsed(app, clock.now) == 0 ==> r.app.state.wpm == 0.0
    ensures r.app.state.wpm == Wpm(r.app.state.wordCount, Elapsed(app, clock.now))
    ensures r.app == app.(state := r.app.state, recentFiles := r.app.recentFiles)
    ensures r.app.text == app.text
    ensures r.app.recentFiles == RecentFiles(r.fs)
    ensures r.app.menuItems == app.menuItems && r.app.selectedMenuIndex == app.selectedMenuIndex
    ensures r.app.customDurationInputText == app.customDurationInputText
  {
    var saved := SaveText(fs, clock.local, app.text);
    var wordCount := GetWordCount(app);
    var secs := Elapsed(app, clock.now);
    var wpm := Wpm(wordCount, secs);
    Step(app.(state := SessionEnd(saved.path, wordCount, wpm), recentFiles := RecentFiles(saved.fs)), saved.fs)
  }

  /** `update`, called once per loop iteration: ends a writing session whose time is up. */
  function Update(app: App, fs: Store, clock: Clock): (r: Step)
    ensures !(app.state.Freewrite? && Expired(app, clock.now)) ==> r == Step(app, fs)
    ensures app.state.Freewrite? && Expired(app, clock.now) ==>
              r.app.state.SessionEnd? && r.fs == SaveText(fs, clock.local, app.text).fs
  {
    if app.state.Freewrite? && Expired(app, clock.now) then EndSession(app, fs, clock) else Step(app, fs)
  }

  /** The text `load_file_content_from_name` shows when the file cannot be read. */
  function ReadErrorMessage(filename: string, description: string): string {
    "Error reading file " + filename + ": " + description
  }

  /** `load_file_content_from_name`: preview the named file, or an error message in its place. */
  function LoadFileContentFromName(app: App, fs: Store, filename: string): (r: App)
    ensures r.displayedFileContent.Some?
    ensures filename in fs ==> r.displayedFileContent.value == fs[filename]
    ensures filename !in fs ==> r.displayedFileContent.value == ReadErrorMessage(filename, NotFoundDescription)
    ensures r == app.(displayedFileContent := r.displayedFileContent)
  {
    match ReadToString(fs, filename)
    case Read(content) => app.(displayedFileContent := Some(content))
    case ReadError(description) => app.(displayedFileContent := Some(ReadErrorMessage(filename, description)))
  }

  /** `reset_to_main_menu`: back to a fresh main menu, keeping the session length and the custom buffer. */
  function ResetToMainMenu(app: App, fs: Store): (r: App)
    ensures r.state == MainMenu && r.text == []
    ensures r.recentFiles == RecentFiles(fs) && r.displayedFileContent == None
    ensures r.panelFocus == Sessions && r.selectedMenuIndex == 0 && r.selectedRecentIndex == 0
    ensures r.customDurationInputText == app.customDurationInputText
    ensures r.sessionDuration == app.sessionDuration && r.startTime == app.startTime
    ensures r.menuItems == app.menuItems
    ensures app.menuItems == MenuItems && AllAsciiDigits(app.customDurationInputText) ==> Valid(r)
  {
    app.(
      state := MainMenu,
      text := [],
      recentFiles := RecentFiles(fs),
      displayedFileContent := None,
      panelFocus := Sessions,
      selectedMenuIndex := 0,
      selectedRecentIndex := 0)
  }

  /** The summary's speed: over `secs > 0` whole elapsed seconds it is `words * 60 / secs`. */
  lemma EndSessionSpeed(app: App, fs: Store, clock: Clock)
    requires Elapsed(app, clock.now) > 0
    ensures EndSession(app, fs, clock).app.state.wpm
              == (WordCount(app.text) as real) * 60.0 / (Elapsed(app, clock.now) as real)
  {
    var secs := Elapsed(app, clock.now);
    WpmIsRate(WordCount(app.text), secs);
  }

  /** Resetting twice is resetting once. */
  lemma ResetIsIdempotent(app: App, fs: Store)
    ensures ResetToMainMenu(ResetToMainMenu(app, fs), fs) == ResetToMainMenu(app, fs)
  {
  }

  /** A session started at `now` for `m` minutes is still running at every
      earlier-than-`m*60`-seconds tick and ends at the first tick at or after it. */
  lemma SessionExpiresAfterItsDuration(app: App, fs: Store, m: nat, start: nat, clock: Clock)
    requires clock.now >= start
    ensures var s := StartSession(app, m, start);
            Update(s, fs, clock).app.state.SessionEnd? <==> clock.now - start >= m * 60
    ensures var s := StartSession(app, m, start);
            clock.now - start < m * 60 ==> Update(s, fs, clock) == Step(s, fs)
  {
  }

  /** Once a tick has ended the session, no later tick ends it again: at most one save per episode. */
  lemma UpdateEndsSessionOnce(app: App, fs: Store, clock: Clock, later: Clock)
    ensures var r := Update(app, fs, clock);
            Update(r.app, r.fs, later) == r || r.app.state.Freewrite?
    ensures var r := Update(app, fs, clock);
            r.app.state.Freewrite? ==> r == Step(app, fs)
  {
  }

  /** The just-saved file heads the recent list whenever its name is the newest in the directory,
      as it is for saves named from a clock that never runs backwards. */
  lemma EndSessionListsNewSave(app: App, fs: Store, clock: Clock)
    requires forall n :: n in fs ==> !Below(SessionFileName(clock.local), n)
    ensures EndSession(app, fs, clock).app.recentFiles[0] == SessionFileName(clock.local)
  {
    var r := EndSession(app, fs, clock);
    var name := SessionFileName(clock.local);
    forall n | n in r.fs ensures !Below(name, n) {
      if n == name {
        BelowIrreflexive(name);
      }
    }
    NewestIsListedFirst(r.fs, name);
  }
}
