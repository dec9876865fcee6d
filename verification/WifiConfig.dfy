/**
 * The station's configuration in memory and in flash. Saving compares before it writes; fetching
 * needs every key. Texts are the C strings in the fixed-size arrays.
 */
module WifiConfig {
  import opened Wrappers

  datatype Config = Config(ssid: string, password: string)

  const NO_CONFIG := Config("", "")

  /** The fields the saver compares, and the static-IP part it does not look at. */
  datatype Settings = Settings(compared: ApSettings, staticIp: nat)

  datatype ApSettings = ApSettings(ssid: string, pwd: string, hidden: nat, bandwidth: nat,
                                   staOnly: bool, powerSave: nat, channel: nat)

  const ZEROED := Settings(ApSettings("", "", 0, 0, false, 0, 0), 0)

  /** The three keys of the namespace; a key may never have been written. */
  datatype Nvs = Nvs(ssid: Option<string>, password: Option<string>, settings: Option<Settings>)

  datatype Operation =
    | Open
    | GetSsid
    | SetSsid
    | GetPassword
    | SetPassword
    | GetSettings
    | SetSettings
    | Commit

  datatype Error = Ok | NotFound | Failed

  /** A missing key reads as zeros into the cleared buffer. */
  function Get<T>(key: Option<T>, default: T): T
  {
    if key.Some? then key.value else default
  }

  /** A key after compare-before-write. */
  function Updated<T(==)>(key: Option<T>, same: bool, value: T): Option<T>
  {
    if same then key else Some(value)
  }

  /** The flash after a save that meets no error. */
  function Saved(c: Config, s: Settings, nvs: Nvs): Nvs
  {
    Nvs(Updated(nvs.ssid, Get(nvs.ssid, "") == c.ssid, c.ssid),
        Updated(nvs.password, Get(nvs.password, "") == c.password, c.password),
        Updated(nvs.settings, Get(nvs.settings, ZEROED).compared == s.compared, s))
  }

  function Overwritten(c: Config, s: Settings): Nvs
  {
    Nvs(Some(c.ssid), Some(c.password), Some(s))
  }

  /** What the flash says the configuration is. */
  predicate Holds(nvs: Nvs, c: Config)
  {
    Get(nvs.ssid, "") == c.ssid && Get(nvs.password, "") == c.password
  }

  datatype Fetched = Fetched(found: bool, config: Config, settings: Settings)

  /** The memory is cleared first and filled as far as the keys go. */
  function Fetch(nvs: Nvs, settings: Settings): Fetched
  {
    if nvs.ssid.None? then Fetched(false, NO_CONFIG, settings)
    else if nvs.password.None? then Fetched(false, Config(nvs.ssid.value, ""), settings)
    else if nvs.settings.None? then Fetched(false, Config(nvs.ssid.value, nvs.password.value), settings)
    else Fetched(nvs.ssid.value != "", Config(nvs.ssid.value, nvs.password.value), nvs.settings.value)
  }

  /** The key is compared, and found different from the memory. */
  predicate Wanted(failing: set<Operation>, get: Operation, differs: bool)
  {
    get !in failing && differs
  }

  /** The keys a save wants to write. */
  datatype Wants = Wants(ssid: bool, password: bool, settings: bool)

  function WantsOf(c: Config, s: Settings, nvs: Nvs, failing: set<Operation>): Wants
  {
    Wants(Wanted(failing, GetSsid, Get(nvs.ssid, "") != c.ssid),
          Wanted(failing, GetPassword, Get(nvs.password, "") != c.password),
          Wanted(failing, GetSettings, Get(nvs.settings, ZEROED).compared != s.compared))
  }

  /** The operation that ends a save before its last key, if any: opening, or a write that is wanted. */
  function Stop(w: Wants, failing: set<Operation>): Option<Operation>
  {
    if Open in failing then Some(Open)
    else if w.ssid && SetSsid in failing then Some(SetSsid)
    else if w.password && SetPassword in failing then Some(SetPassword)
    else if w.settings && SetSettings in failing then Some(SetSettings)
    else None
  }

  /** The flash after a save: each wanted key up to the operation that ends it. */
  function Written(c: Config, s: Settings, nvs: Nvs, w: Wants, stop: Option<Operation>): Nvs
  {
    Nvs(if w.ssid && stop !in {Some(Open), Some(SetSsid)} then Some(c.ssid) else nvs.ssid,
        if w.password && stop !in {Some(Open), Some(SetSsid), Some(SetPassword)} then Some(c.password)
        else nvs.password,
        if w.settings && stop.None? then Some(s) else nvs.settings)
  }

  /** What a save that reaches its end reports: the commit, or without a change the last read. */
  function Verdict(nvs: Nvs, w: Wants, failing: set<Operation>): Error
  {
    if w != Wants(false, false, false) then if Commit in failing then Failed else Ok
    else if GetSettings in failing then Failed
    else if nvs.settings.None? then NotFound
    else Ok
  }

  /** What a fetch can see: a key whose read fails is as good as missing. */
  function Visible(nvs: Nvs, failing: set<Operation>): Nvs
  {
    Nvs(if GetSsid in failing then None else nvs.ssid, if GetPassword in failing then None else nvs.password,
        if GetSettings in failing then None else nvs.settings)
  }

  /** A fetch for every set of failing operations; without an open flash the memory is kept. */
  function FetchWith(c: Config, s: Settings, nvs: Nvs, failing: set<Operation>): Fetched
  {
    if Open in failing then Fetched(false, c, s) else Fetch(Visible(nvs, failing), s)
  }

  /** A save ends with the lock in its hand: it reaches its end there with an error. */
  predicate KeepsLock(c: Config, s: Settings, nvs: Nvs, failing: set<Operation>)
  {
    var w := WantsOf(c, s, nvs, failing);
    Stop(w, failing).None? && Verdict(nvs, w, failing) != Ok
  }

  /** No read or write of a key that differs fails, nor the write before it. */
  predicate Reaches(c: Config, nvs: Nvs, failing: set<Operation>)
  {
    var ssid, password := Get(nvs.ssid, "") != c.ssid, Get(nvs.password, "") != c.password;
    && (ssid ==> Open !in failing && GetSsid !in failing && SetSsid !in failing)
    && (password ==> Open !in failing && GetPassword !in failing && SetPassword !in failing)
    && (ssid && password ==> SetSsid !in failing)
  }

  class Store {
    var config: Config
    var settings: Settings
    var nvs: Nvs
    var locked: bool
    // the operations that fail, and the writes since the last commit was attempted
    var failing: set<Operation>
    var writes: nat

    constructor (config: Config, settings: Settings, nvs: Nvs, failing: set<Operation>)
      ensures this.config == config && this.settings == settings && this.nvs == nvs
      ensures this.failing == failing && !locked && writes == 0
    {
      this.config, this.settings, this.nvs, this.failing := config, settings, nvs, failing;
      locked, writes := false, 0;
    }

    /**
     * wifi_manager_save_sta_config. A read error skips the comparison of that key, a write error
     * ends the call. The lock stays taken when the call ends on an error after the last key.
     */
    method Save() returns (err: Error)
      requires !locked
      modifies this`nvs, this`locked, this`writes
      ensures var w := WantsOf(config, settings, old(nvs), failing);
              var stop := Stop(w, failing);
              && nvs == Written(config, settings, old(nvs), w, stop)
              && (stop.Some? ==> err == Failed && !locked)
              && (stop.None? ==> err == Verdict(old(nvs), w, failing))
              && (locked <==> KeepsLock(config, settings, old(nvs), failing))
      ensures writes >= old(writes) && (writes > old(writes) <==> nvs != old(nvs))
    {
      locked := true;
      if Open in failing {
        locked := false;
        return Failed;
      }
      var ok, ssid := SaveSsid();
      if !ok {
        locked := false;
        return Failed;
      }
      var password;
      ok, password := SavePassword();
      if !ok {
        locked := false;
        return Failed;
      }
      var changed;
      ok, changed, err := SaveSettings();
      if !ok {
        locked := false;
        return Failed;
      }
      if ssid || password || changed {
        err := if Commit in failing then Failed else Ok;
      }
      if err == Ok {
        locked := false;
      }
    }

    // One key each: compared if it can be read, written if it differs.

    method SaveSsid() returns (ok: bool, changed: bool)
      modifies this`nvs, this`writes
      ensures var wanted := Wanted(failing, GetSsid, Get(old(nvs.ssid), "") != config.ssid);
              ok == !(wanted && SetSsid in failing) && changed == (wanted && ok)
      ensures nvs == if changed then old(nvs).(ssid := Some(config.ssid)) else old(nvs)
      ensures writes == old(writes) + if changed then 1 else 0
    {
      if GetSsid !in failing && Get(nvs.ssid, "") != config.ssid {
        if SetSsid in failing {
          return false, false;
        }
        nvs := nvs.(ssid := Some(config.ssid));
        writes := writes + 1;
        return true, true;
      }
      return true, false;
    }

    method SavePassword() returns (ok: bool, changed: bool)
      modifies this`nvs, this`writes
      ensures var wanted := Wanted(failing, GetPassword, Get(old(nvs.password), "") != config.password);
              ok == !(wanted && SetPassword in failing) && changed == (wanted && ok)
      ensures nvs == if changed then old(nvs).(password := Some(config.password)) else old(nvs)
      ensures writes == old(writes) + if changed then 1 else 0
    {
      if GetPassword !in failing && Get(nvs.password, "") != config.password {
        if SetPassword in failing {
          return false, false;
        }
        nvs := nvs.(password := Some(config.password));
        writes := writes + 1;
        return true, true;
      }
      return true, false;
    }

    /** The error of the last operation on the settings is what a save without a change reports. */
    method SaveSettings() returns (ok: bool, changed: bool, err: Error)
      modifies this`nvs, this`writes
      ensures var wanted := Wanted(failing, GetSettings, Get(old(nvs.settings), ZEROED).compared != settings.compared);
              ok == !(wanted && SetSettings in failing) && changed == (wanted && ok)
      ensures nvs == if changed then old(nvs).(settings := Some(settings)) else old(nvs)
      ensures writes == old(writes) + if changed then 1 else 0
      ensures ok && !changed ==>
                err == if GetSettings in failing then Failed else if nvs.settings.None? then NotFound else Ok
    {
      err := if GetSettings in failing then Failed else if nvs.settings.None? then NotFound else Ok;
      if err != Failed && Get(nvs.settings, ZEROED).compared != settings.compared {
        if SetSettings in failing {
          return false, false, Failed;
        }
        nvs := nvs.(settings := Some(settings));
        writes := writes + 1;
        return true, true, Ok;
      }
      return true, false, err;
    }

    /** wifi_manager_fetch_wifi_sta_config: a missing key or a failing read ends the call. */
    method FetchConfig() returns (found: bool)
      requires !locked
      modifies this`config, this`settings
      ensures Fetched(found, config, settings) == FetchWith(old(config), old(settings), nvs, failing)
    {
      if Open in failing {
        return false;
      }
      config := NO_CONFIG;
      if GetSsid in failing || nvs.ssid.None? {
        return false;
      }
      config := config.(ssid := nvs.ssid.value);
      if GetPassword in failing || nvs.password.None? {
        return false;
      }
      config := config.(password := nvs.password.value);
      if GetSettings in failing || nvs.settings.None? {
        return false;
      }
      settings := nvs.settings.value;
      found := config.ssid != "";
    }
  }

  // ------------------------------------------------- a save and a fetch, key by key

  /** The flash says the text: it is stored, or empty and not stored. */
  predicate Says(key: Option<string>, text: string)
  {
    key == Some(text) || (key == None && text == "")
  }

  /** The flash says the settings, as far as they are compared. */
  predicate SaysSettings(key: Option<Settings>, s: Settings)
  {
    match key
    case Some(stored) => stored.compared == s.compared
    case None => s.compared == ApSettings("", "", 0, 0, false, 0, 0)
  }

  /**
   * Each key after a save, for every set of failing operations: replaced if it was read, found to
   * differ and written, and no write before it failed; otherwise as it was.
   */
  lemma SavedKeyByKey(c: Config, s: Settings, nvs: Nvs, failing: set<Operation>)
    ensures var w := WantsOf(c, s, nvs, failing);
            var nvs' := Written(c, s, nvs, w, Stop(w, failing));
            var ssid := GetSsid !in failing && !Says(nvs.ssid, c.ssid);
            var password := GetPassword !in failing && !Says(nvs.password, c.password);
            var settings := GetSettings !in failing && !SaysSettings(nvs.settings, s);
            var first := Open !in failing && !(ssid && SetSsid in failing);
            var second := first && !(password && SetPassword in failing);
            && nvs'.ssid == (if ssid && first then Some(c.ssid) else nvs.ssid)
            && nvs'.password == (if password && second then Some(c.password) else nvs.password)
            && nvs'.settings == (if settings && second && SetSettings !in failing then Some(s) else nvs.settings)
  {
  }

  /**
   * The lock stays taken exactly after a save that opened the flash, failed no write, and ended on an
   * error: of the commit if a key was written, otherwise of reading the settings, or none are stored.
   */
  lemma LockStaysIff(c: Config, s: Settings, nvs: Nvs, failing: set<Operation>)
    ensures var ssid := GetSsid !in failing && !Says(nvs.ssid, c.ssid);
            var password := GetPassword !in failing && !Says(nvs.password, c.password);
            var settings := GetSettings !in failing && !SaysSettings(nvs.settings, s);
            KeepsLock(c, s, nvs, failing)
            <==> && Open !in failing && !(ssid && SetSsid in failing)
                 && !(password && SetPassword in failing) && !(settings && SetSettings in failing)
                 && if ssid || password || settings then Commit in failing
                    else GetSettings in failing || nvs.settings == None
  {
  }

  /** A fetch finds a network exactly when every key can be read and the SSID is not empty. */
  lemma FetchFindsIff(c: Config, s: Settings, nvs: Nvs, failing: set<Operation>)
    ensures var f := FetchWith(c, s, nvs, failing);
            && (f.found <==> && Open !in failing && GetSsid !in failing && GetPassword !in failing
                             && GetSettings !in failing && nvs.ssid.Some? && nvs.password.Some?
                             && nvs.settings.Some? && nvs.ssid != Some(""))
            && (f.found ==> nvs == Nvs(Some(f.config.ssid), Some(f.config.password), Some(f.settings)))
  {
  }

  /** A fetch that ends early leaves the memory cleared from the missing key on. */
  lemma FetchFillsInOrder(c: Config, s: Settings, nvs: Nvs, failing: set<Operation>)
    ensures var f := FetchWith(c, s, nvs, failing);
            var ssid := GetSsid !in failing && nvs.ssid.Some?;
            var password := ssid && GetPassword !in failing && nvs.password.Some?;
            && (Open in failing ==> f.config == c && f.settings == s)
            && (Open !in failing ==>
                  && f.config.ssid == (if ssid then nvs.ssid.value else "")
                  && f.config.password == (if password then nvs.password.value else "")
                  && f.settings == if password && GetSettings !in failing && nvs.settings.Some?
                                   then nvs.settings.value else s)
  {
  }

  // ------------------------------------------------------------------- main results

  /**
   * A save that meets no failing operation: every key that differs is written. The lock stays
   * taken exactly when nothing differs and no settings were ever stored.
   */
  lemma NothingFails(c: Config, s: Settings, nvs: Nvs)
    ensures var w := WantsOf(c, s, nvs, {});
            && Stop(w, {}).None? && Written(c, s, nvs, w, None) == Saved(c, s, nvs)
            && (KeepsLock(c, s, nvs, {}) <==> Saved(c, s, nvs) == nvs && nvs.settings.None?)
  {
  }

  /** Without a failing read or write the flash holds the configuration, whatever the commit says. */
  lemma SavedUnlessOperationFails(c: Config, s: Settings, nvs: Nvs, failing: set<Operation>)
    ensures var w := WantsOf(c, s, nvs, failing);
            Holds(Written(c, s, nvs, w, Stop(w, failing)), c) <==> Reaches(c, nvs, failing)
  {
  }

  /** After a save the flash says what the memory says. */
  lemma SaveHolds(c: Config, s: Settings, nvs: Nvs)
    ensures Holds(Saved(c, s, nvs), c)
    ensures Get(Saved(c, s, nvs).settings, ZEROED).compared == s.compared
  {
  }

  /** A second save finds nothing to write. */
  lemma SecondSaveWritesNothing(c: Config, s: Settings, nvs: Nvs)
    ensures Saved(c, s, Saved(c, s, nvs)) == Saved(c, s, nvs)
  {
    SaveHolds(c, s, nvs);
  }

  /**
   * Comparing first leaves the flash as an unconditional write would exactly when no key is both
   * missing and blank, and no static address changed behind equal settings.
   */
  lemma SaveIsOverwriteIff(c: Config, s: Settings, nvs: Nvs)
    ensures Saved(c, s, nvs) == Overwritten(c, s)
            <==> && (nvs.ssid.Some? || c.ssid != "")
                 && (nvs.password.Some? || c.password != "")
                 && (Get(nvs.settings, ZEROED).compared != s.compared || nvs.settings == Some(s))
  {
  }

  /**
   * Fetching after saving finds the configuration again exactly when the SSID is not empty, the
   * password is not empty or was stored before, and the settings are not blank or were stored.
   */
  lemma FetchAfterSaveIff(c: Config, s: Settings, nvs: Nvs, s0: Settings)
    ensures Fetch(Saved(c, s, nvs), s0).found
            <==> && c.ssid != ""
                 && (c.password != "" || nvs.password.Some?)
                 && (s.compared != ZEROED.compared || nvs.settings.Some?)
    ensures Fetch(Saved(c, s, nvs), s0).found ==>
              var f := Fetch(Saved(c, s, nvs), s0);
              f.config == c && f.settings.compared == s.compared
  {
  }

  /** A network without a password, saved on a fresh flash, is not found at the next start. */
  lemma OpenNetworkIsForgotten(ssid: string, s: Settings, s0: Settings)
    requires ssid != ""
    ensures var blank := Nvs(None, None, None);
            var flash := Saved(Config(ssid, ""), s, blank);
            Holds(flash, Config(ssid, "")) && !Fetch(flash, s0).found
  {
  }

  /** A new static address alone is not saved. */
  lemma StaticAddressIsNotSaved(c: Config, s: Settings, ip: nat)
    requires ip != s.staticIp
    ensures Saved(c, s.(staticIp := ip), Overwritten(c, s)) == Overwritten(c, s)
  {
  }
}
