/** The parsed ConfigMap: internal/config/types.go. */
module Specs {
  import opened Requests
  import opened RoleValues
  import EngineConfigs

  /** Durations in nanoseconds; 0 is an unset one. */
  datatype Settings = Settings(pruneMode: string, resyncInterval: int, logLevel: string, stallTimeout: int,
                               tokenGracePeriod: int, tokenFailTimeout: int, watchGracePeriod: int)

  datatype Source = Source(url: string, image: string, path: string, sha256: string, binary: string)

  datatype CatalogEntry = CatalogEntry(name: string, ptype: string, version: string, source: Source)

  /** Declared options are absent or a map, which may be empty. */
  datatype MountEntry = MountEntry(path: string, plugin: string, ptype: string, version: string,
                                   description: string, options: Option<map<string, string>>)

  datatype RoleEntry = RoleEntry(mount: string, name: string, rolesPath: string, data: Body)

  type EngineConfigEntry = EngineConfigs.Entry

  const SECRET := "secret"
  const AUTH := "auth"
  const DATABASE := "database"

  const PRUNE_FULL := "full"
  const PRUNE_DEREGISTER := "deregister"
  const PRUNE_NEVER := "never"

  const MINUTE := 60_000_000_000

  /** ApplyDefaults */
  function WithDefaults(s: Settings): Settings {
    var grace := if s.tokenGracePeriod == 0 then 2 * MINUTE else s.tokenGracePeriod;
    Settings(
      if s.pruneMode == "" then PRUNE_FULL else s.pruneMode,
      if s.resyncInterval == 0 then 5 * MINUTE else s.resyncInterval,
      if s.logLevel == "" then "info" else s.logLevel,
      if s.stallTimeout == 0 then 10 * MINUTE else s.stallTimeout,
      grace,
      if s.tokenFailTimeout == 0 then (if 15 * MINUTE < grace then grace else 15 * MINUTE) else s.tokenFailTimeout,
      if s.watchGracePeriod == 0 then 2 * MINUTE else s.watchGracePeriod)
  }

  /** Settings.validate */
  predicate SettingsValid(s: Settings) {
    && s.pruneMode in {PRUNE_FULL, PRUNE_DEREGISTER, PRUNE_NEVER}
    && s.logLevel in {"debug", "info", "warn", "error"}
    && s.resyncInterval > 0 && s.stallTimeout > 0 && s.tokenGracePeriod > 0 && s.watchGracePeriod > 0
    && s.tokenFailTimeout >= s.tokenGracePeriod
  }

  /** With the defaults filled in, settings are valid iff those given are: a known mode and level, no negative time, and
      a fail timeout, if it is given, that outlasts the grace, which is two minutes if it is not. */
  lemma {:induction false} DefaultedIsValidIff(s: Settings)
    ensures SettingsValid(WithDefaults(s)) <==>
              && s.pruneMode in {"", "full", "deregister", "never"}
              && s.logLevel in {"", "debug", "info", "warn", "error"}
              && s.resyncInterval >= 0 && s.stallTimeout >= 0 && s.tokenGracePeriod >= 0 && s.watchGracePeriod >= 0
              && (s.tokenFailTimeout == 0
                  || s.tokenFailTimeout >= if s.tokenGracePeriod == 0 then 120_000_000_000 else s.tokenGracePeriod)
  {
  }

  /** Defaults fill in what is left out and change nothing that is given: full pruning, five minutes between resyncs,
      level info, ten minutes for a pass, two minutes of grace for token and watch, and a quarter of an hour, or the
      grace if that is longer, until the token failure counts. */
  lemma {:induction false} DefaultsFillIn(s: Settings)
    ensures var d := WithDefaults(s);
            && Filled(s.pruneMode, "", "full", d.pruneMode) && Filled(s.logLevel, "", "info", d.logLevel)
            && Filled(s.resyncInterval, 0, 300_000_000_000, d.resyncInterval)
            && Filled(s.stallTimeout, 0, 600_000_000_000, d.stallTimeout)
            && Filled(s.tokenGracePeriod, 0, 120_000_000_000, d.tokenGracePeriod)
            && Filled(s.watchGracePeriod, 0, 120_000_000_000, d.watchGracePeriod)
            && (s.tokenFailTimeout != 0 ==> d.tokenFailTimeout == s.tokenFailTimeout)
            && (s.tokenFailTimeout == 0 ==>
                  && d.tokenFailTimeout >= 900_000_000_000 && d.tokenFailTimeout >= d.tokenGracePeriod
                  && (d.tokenFailTimeout == 900_000_000_000 || d.tokenFailTimeout == d.tokenGracePeriod))
  {
  }

  ghost predicate Filled<T>(given: T, unset: T, default: T, filled: T) {
    if given == unset then filled == default else filled == given
  }

  predicate ValidType(t: string) {
    t in {SECRET, AUTH, DATABASE}
  }

  /** Source.validate */
  predicate SourceValid(s: Source) {
    (s.url == "") != (s.image == "") && (s.image != "" ==> s.path != "")
  }
}
