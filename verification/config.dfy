/** The general configuration constants of the application. */
module Config {
  /** Length of the preset default session, and the fallback for an unreadable custom length, in minutes. */
  const DefaultSessionDurationMins: nat := 5

  /** Directory, relative to the working directory, that holds the saved sessions. */
  const OutputDir: string := "freewrite_sessions"

  /** How many saved sessions the recent list shows at most. */
  const MaxRecentFiles: nat := 10
}
