/**
  The saved-session directory, as the application sees it: a store from file
  name (inside the output directory) to file contents. Saving names the file
  after the local wall-clock minute; listing returns the newest names first.
 */
module Persistence {
  import opened Optional
  import opened Chars
  import opened Numbers
  import opened StringOrder
  import opened Config

  /** The regular files of the output directory: file name to contents. */
  type Store = map<string, string>

  /** A local calendar time at minute resolution, as `chrono::Local::now()` reports it. */
  datatype DateTime = DateTime(year: nat, month: nat, day: nat, hour: nat, minute: nat)

  predicate ValidDateTime(t: DateTime) {
    && t.year <= 9999
    && 1 <= t.month <= 12
    && 1 <= t.day <= 31
    && t.hour < 24
    && t.minute < 60
  }

  const SessionFileSuffix: string := "_freewritesession.txt"

  /** Placed in the recent list when there is nothing to list. */
  const NoRecentSession: string := "There's no recent session"

  /** The name `save_text` gives the file: `{:04}-{:02}-{:02}_{:02}:{:02}_freewritesession.txt`. */
  function SessionFileName(t: DateTime): (name: string)
    ensures |name| >= 16 + |SessionFileSuffix|
    ensures name[|name| - |SessionFileSuffix|..] == SessionFileSuffix
  {
    ZeroPad(t.year, 4) + "-" + ZeroPad(t.month, 2) + "-" + ZeroPad(t.day, 2) + "_"
      + ZeroPad(t.hour, 2) + ":" + ZeroPad(t.minute, 2) + SessionFileSuffix
  }

  /** The path `save_text` returns: the file name under the output directory. */
  function SessionFilePath(t: DateTime): string {
    OutputDir + "/" + SessionFileName(t)
  }

  /** Reads the save time back out of a session file name. */
  function ParseSessionFileName(name: string): Option<DateTime> {
    if |name| != 16 + |SessionFileSuffix| then None
    else if name[4] != '-' || name[7] != '-' || name[10] != '_' || name[13] != ':' then None
    else if name[16..] != SessionFileSuffix then None
    else if !(AllAsciiDigits(name[0..4]) && AllAsciiDigits(name[5..7]) && AllAsciiDigits(name[8..10])
              && AllAsciiDigits(name[11..13]) && AllAsciiDigits(name[14..16])) then None
    else Some(DateTime(DecimalValue(name[0..4]), DecimalValue(name[5..7]), DecimalValue(name[8..10]),
                       DecimalValue(name[11..13]), DecimalValue(name[14..16])))
  }

  /** A session file name determines the minute it was saved in. */
  lemma SessionFileNameRoundTrip(t: DateTime)
    requires ValidDateTime(t)
    ensures |SessionFileName(t)| == 16 + |SessionFileSuffix|
    ensures ParseSessionFileName(SessionFileName(t)) == Some(t)
  {
    ZeroPadRoundTrip(t.year, 4);
    ZeroPadRoundTrip(t.month, 2);
    ZeroPadRoundTrip(t.day, 2);
    ZeroPadRoundTrip(t.hour, 2);
    ZeroPadRoundTrip(t.minute, 2);
    var name := SessionFileName(t);
    assert name[0..4] == ZeroPad(t.year, 4);
    assert name[5..7] == ZeroPad(t.month, 2);
    assert name[8..10] == ZeroPad(t.day, 2);
    assert name[11..13] == ZeroPad(t.hour, 2);
    assert name[14..16] == ZeroPad(t.minute, 2);
    assert name[16..] == SessionFileSuffix;
  }

  /** Saves in the same minute share a name; saves in different minutes never do. */
  lemma SessionFileNameInjective(t1: DateTime, t2: DateTime)
    requires ValidDateTime(t1) && ValidDateTime(t2)
    ensures SessionFileName(t1) == SessionFileName(t2) <==> t1 == t2
  {
    SessionFileNameRoundTrip(t1);
    SessionFileNameRoundTrip(t2);
  }

  datatype Saved = Saved(fs: Store, path: string)

  /** `save_text`: writes `text` to the file named after `t`, replacing a file of
      that name, and returns the path it wrote. */
  function SaveText(fs: Store, t: DateTime, text: string): (r: Saved)
    ensures r.path == SessionFilePath(t)
    ensures r.fs.Keys == fs.Keys + {SessionFileName(t)}
    ensures r.fs[SessionFileName(t)] == text
    ensures forall n :: n in fs && n != SessionFileName(t) ==> r.fs[n] == fs[n]
  {
    Saved(fs[SessionFileName(t) := text], SessionFilePath(t))
  }

  /** Two saves in the same minute leave only the later text behind. */
  lemma SaveSameMinuteOverwrites(fs: Store, t: DateTime, first: string, second: string)
    ensures SaveText(SaveText(fs, t, first).fs, t, second).fs == SaveText(fs, t, second).fs
    ensures SaveText(SaveText(fs, t, first).fs, t, second).fs[SessionFileName(t)] == second
  {
  }

  /** The outcome of `fs::read_to_string`. */
  datatype ReadResult = Read(content: string) | ReadError(description: string)

  /** The operating system's description of a missing file (Linux wording). */
  const NotFoundDescription: string := "No such file or directory (os error 2)"

  function ReadToString(fs: Store, name: string): (r: ReadResult)
    ensures r.Read? <==> name in fs
    ensures r.Read? ==> r.content == fs[name]
  {
    if name in fs then Read(fs[name]) else ReadError(NotFoundDescription)
  }

  function Min(a: nat, b: nat): nat {
    if a <= b then a else b
  }

  /** `load_recent_files`: the stored names sorted in descending order, at most
      `MaxRecentFiles` of them, or the placeholder alone when there are none. */
  function RecentFiles(fs: Store): (names: seq<string>)
    ensures 1 <= |names| <= MaxRecentFiles
    ensures |fs| == 0 ==> names == [NoRecentSession]
    ensures |fs| > 0 ==> |names| == Min(|fs|, MaxRecentFiles)
    ensures |fs| > 0 ==> forall i :: 0 <= i < |names| ==> names[i] in fs
    ensures |fs| > 0 ==> StrictlyDescending(names)
  {
    var sorted := SortDescending(fs.Keys);
    if |sorted| == 0 then [NoRecentSession]
    else if |sorted| <= MaxRecentFiles then sorted
    else sorted[..MaxRecentFiles]
  }

  /** What the recent list leaves out sorts below everything it shows: it holds
      the newest names, and a name missing from it is missing only because ten
      newer ones are listed. */
  lemma RecentFilesAreTheNewest(fs: Store, n: string)
    requires n in fs
    ensures n !in RecentFiles(fs) ==>
              |RecentFiles(fs)| == MaxRecentFiles
              && forall i :: 0 <= i < |RecentFiles(fs)| ==> Below(n, RecentFiles(fs)[i])
  {
    var sorted := SortDescending(fs.Keys);
    var names := RecentFiles(fs);
    if n !in names {
      var j :| 0 <= j < |sorted| && sorted[j] == n;
      assert j >= MaxRecentFiles;
      forall i | 0 <= i < |names| ensures Below(n, names[i]) {
        assert names[i] == sorted[i];
      }
    }
  }

  /** A name that sorts at or above every stored name is listed first. */
  lemma NewestIsListedFirst(fs: Store, n: string)
    requires n in fs
    requires forall m :: m in fs ==> !Below(n, m)
    ensures RecentFiles(fs)[0] == n
  {
    RecentFilesAreTheNewest(fs, n);
  }
}
