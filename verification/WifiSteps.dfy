/**
 * What every step of the Wi-Fi manager does, field by field: the exact next value of each event bit,
 * timer, counter and configuration, and of the queue, in terms of the state and the label alone.
 */
module WifiSteps {
  import opened Wrappers
  import opened WifiConfig
  import opened WifiManager
  import opened StatusJson

  // ------------------------------------------------------- which message a step takes

  /** A step takes the front of the queue, unless its handler needs the lock the task has kept. */
  lemma TakenExactly(s: State, l: Label)
    ensures Taken(s, l)
         == if !l.Process? || s.queue == [] then None
            else if s.locked && s.queue[0] == LoadAndRestore then None
            else if s.locked && s.queue[0] == GotIp && !s.requestRestore then None
            else if s.locked && s.queue[0] == Disconnected && !s.requestConnect && s.requestDisconnect then None
            else Some(s.queue[0])
  {
  }

  // ------------------------------------------------------------ one message at a time

  /** A step that takes a message is the handler at work on the rest of the queue. */
  lemma MessageStep(s: State, l: Label)
    requires Taken(s, l).Some?
    ensures Step(s, l) == Handle(s.(queue := s.queue[1..]), s.queue[0], l.failing)
  {
    hide Handle;
  }

  /** A user's attempt that fails is over: it is shown, and nothing else happens. */
  lemma AttemptExactly(s: State, l: Label)
    requires Taken(s, l) == Some(Disconnected) && s.requestConnect
    ensures Step(s, l)
         == s.(shutdownTimer := false, requestConnect := false, shown := Some(FailedAttempt),
               queue := s.queue[1..])
  {
    hide Erased, ConnectionLost, Step;
    MessageStep(s, l);
  }

  /** A disconnection the user asked for erases the configuration and brings the access point up. */
  lemma ErasureExactly(s: State, l: Label)
    requires Taken(s, l) == Some(Disconnected) && !s.requestConnect && s.requestDisconnect
    ensures var s' := Step(s, l);
            s' == s.(shutdownTimer := false, requestDisconnect := false, config := Config("", ""),
                     shown := Some(UserDisconnect), queue := s.queue[1..] + [StartAp], nvs := s'.nvs,
                     locked := s'.locked)
  {
    hide Save, AttemptFailed, ConnectionLost, Step;
    MessageStep(s, l);
    SaveFrame(s.(shutdownTimer := false, requestDisconnect := false, config := NO_CONFIG,
                 shown := Some(UserDisconnect), queue := s.queue[1..]), l.failing);
  }

  /** A lost connection is retried; with the access point down it counts, or orders the access point. */
  lemma LossExactly(s: State, l: Label)
    requires Taken(s, l) == Some(Disconnected) && !s.requestConnect && !s.requestDisconnect
    ensures var below, rest := s.retries < MAX_RETRY_START_AP, s.queue[1..];
            Step(s, l)
              == s.(shutdownTimer := false, shown := Some(LostConnection), retryTimer := true,
                    requestRestore := false,
                    retries := if s.apStarted then s.retries else if below then (s.retries + 1) % 256 else 0,
                    queue := if s.apStarted || below then rest else rest + [StartAp])
  {
    hide Erased, AttemptFailed, Step;
    MessageStep(s, l);
  }

  /** An address ends every attempt, and starts the shutdown timer if the access point is up. */
  lemma AddressExactly(s: State, l: Label)
    requires Taken(s, l) == Some(GotIp)
    ensures var s' := Step(s, l);
            s' == s.(requestConnect := false, requestRestore := false, retries := 0,
                     shown := Some(ConnectionOk), shutdownTimer := s.shutdownTimer || s.apStarted,
                     queue := s.queue[1..], nvs := s'.nvs, locked := s'.locked)
  {
    hide Save, Step;
    MessageStep(s, l);
    SaveFrame(s.(queue := s.queue[1..]), l.failing);
  }

  /** Loading fills the memory from the flash and orders to restore, or the access point. */
  lemma LoadExactly(s: State, l: Label)
    requires Taken(s, l) == Some(LoadAndRestore)
    ensures var f := FetchWith(s.config, s.settings, s.nvs, l.failing);
            Step(s, l)
              == s.(config := f.config, settings := f.settings,
                    queue := s.queue[1..] + [if f.found then Connect(Restore) else StartAp])
  {
    hide FetchWith, Step;
    MessageStep(s, l);
  }

  lemma LoadKeeps(s: State, l: Label)
    requires Taken(s, l) == Some(LoadAndRestore)
    ensures var s' := Step(s, l);
            && s'.shutdownTimer == s.shutdownTimer && s'.requestRestore == s.requestRestore
            && s'.nvs == s.nvs && s'.locked == s.locked
  {
    hide FetchWith, Step;
    LoadExactly(s, l);
  }

  /** The other messages only ask for something: they set at most one bit each. */
  lemma RequestExactly(s: State, l: Label, m: Message)
    requires Taken(s, l) == Some(m) && m != LoadAndRestore && m != Disconnected && m != GotIp
    ensures Step(s, l)
         == s.(scanning := s.scanning || m == StartScan,
               requestConnect := s.requestConnect || m == Connect(User),
               requestRestore := s.requestRestore || m == Connect(Restore),
               requestDisconnect := s.requestDisconnect || m == DisconnectSta,
               queue := s.queue[1..])
  {
    hide Step, HandleRequest;
    MessageStep(s, l);
    RequestTaken(s.(queue := s.queue[1..]), m);
  }

  lemma RequestTaken(s: State, m: Message)
    requires m != LoadAndRestore && m != Disconnected && m != GotIp
    ensures HandleRequest(s, m)
         == s.(scanning := s.scanning || m == StartScan,
               requestConnect := s.requestConnect || m == Connect(User),
               requestRestore := s.requestRestore || m == Connect(Restore),
               requestDisconnect := s.requestDisconnect || m == DisconnectSta)
  {
    if m.Connect? {
      hide HandleConnect;
      ConnectFrame(s, m.origin);
    } else {
      BitTaken(s, m);
    }
  }

  lemma BitTaken(s: State, m: Message)
    requires m == ScanDone || m == StartScan || m == StartAp || m == StopAp || m == DisconnectSta
    ensures HandleRequest(s, m)
         == s.(scanning := s.scanning || m == StartScan,
               requestDisconnect := s.requestDisconnect || m == DisconnectSta)
  {
    match m
    case ScanDone =>
    case StartScan =>
    case StartAp =>
    case StopAp =>
    case DisconnectSta =>
  }

  /** A turn without a message to take changes nothing. */
  lemma IdleExactly(s: State, l: Label)
    requires l.Process? && Taken(s, l).None?
    ensures Step(s, l) == s
  {
  }

  // ---------------------------------------------------------- one label at a time

  /** An event of the driver sets or clears bits and sends at most one message. */
  lemma DriverExactly(s: State, l: Label)
    requires l.DriverScanDone? || l.DriverDisconnected? || l.DriverGotIp? || l.DriverApStarted? || l.DriverApStopped?
    ensures Step(s, l)
         == s.(connected := if l.DriverGotIp? then true else if l.DriverDisconnected? then false else s.connected,
               scanning := s.scanning && !l.DriverScanDone? && !l.DriverDisconnected?,
               apStarted := if l.DriverApStarted? then true else if l.DriverApStopped? then false else s.apStarted,
               queue := if l.DriverScanDone? then s.queue + [ScanDone]
                        else if l.DriverDisconnected? then s.queue + [Disconnected]
                        else if l.DriverGotIp? then s.queue + [GotIp]
                        else s.queue)
  {
    match l
    case DriverScanDone =>
    case DriverDisconnected =>
    case DriverGotIp =>
    case DriverApStarted =>
    case DriverApStopped =>
  }

  /** A timer that runs fires once, and sends its message. */
  lemma TimerExactly(s: State, l: Label)
    requires l.RetryTimerFires? || l.ShutdownTimerFires?
    ensures Step(s, l)
         == s.(retryTimer := s.retryTimer && !l.RetryTimerFires?,
               shutdownTimer := s.shutdownTimer && !l.ShutdownTimerFires?,
               queue := if l.RetryTimerFires? && s.retryTimer then s.queue + [Connect(AutoReconnect)]
                        else if l.ShutdownTimerFires? && s.shutdownTimer then s.queue + [StopAp]
                        else s.queue)
  {
    match l
    case RetryTimerFires => if s.retryTimer { } else { }
    case ShutdownTimerFires => if s.shutdownTimer { } else { }
  }

  /** The web page and the button only send messages; new credentials are in memory at once. */
  lemma UserExactly(s: State, l: Label)
    requires l.UserConnects? || l.UserDisconnects? || l.UserScans? || l.ButtonPressed?
    ensures Step(s, l)
         == s.(config := if l.UserConnects? then l.config else s.config,
               shown := if l.UserConnects? then None else s.shown,
               queue := s.queue + [if l.UserConnects? then Connect(User)
                                   else if l.UserDisconnects? then DisconnectSta
                                   else if l.UserScans? then StartScan
                                   else StartAp])
  {
    match l
    case UserConnects(_) =>
    case UserDisconnects =>
    case UserScans =>
    case ButtonPressed =>
  }

  // ------------------------------------------------------------------ flash and its lock

  /** The flash and its lock are those a save of c leaves behind. */
  predicate SavedBy(s: State, s': State, c: Config, failing: set<Operation>)
  {
    var w := WantsOf(c, s.settings, s.nvs, failing);
    && s'.nvs == Written(c, s.settings, s.nvs, w, Stop(w, failing))
    && s'.locked == KeepsLock(c, s.settings, s.nvs, failing)
  }

  /** An address that was not restored saves the memory, an erasure saves the empty configuration. */
  lemma FlashStep(s: State, l: Label)
    ensures var s' := Step(s, l);
            if Taken(s, l) == Some(GotIp) && !s.requestRestore then SavedBy(s, s', s.config, l.failing)
            else if Taken(s, l) == Some(Disconnected) && !s.requestConnect && s.requestDisconnect then
              SavedBy(s, s', Config("", ""), l.failing)
            else s'.nvs == s.nvs && s'.locked == s.locked
  {
    hide Step;
    if Taken(s, l).Some? {
      FlashTaken(s, l, s.queue[0]);
    } else {
      OnlyMessagesCount(s, l);
    }
  }

  lemma FlashTaken(s: State, l: Label, m: Message)
    requires Taken(s, l) == Some(m)
    ensures var s' := Step(s, l);
            if m == GotIp && !s.requestRestore then SavedBy(s, s', s.config, l.failing)
            else if m == Disconnected && !s.requestConnect && s.requestDisconnect then
              SavedBy(s, s', Config("", ""), l.failing)
            else s'.nvs == s.nvs && s'.locked == s.locked
  {
    hide Step, Taken, SavedBy;
    if m == GotIp {
      AddressSaves(s, l);
    } else if m == LoadAndRestore {
      LoadKeeps(s, l);
    } else if m != Disconnected {
      RequestExactly(s, l, m);
    } else if s.requestConnect {
      AttemptExactly(s, l);
    } else if s.requestDisconnect {
      ErasureSaves(s, l);
    } else {
      LossExactly(s, l);
    }
  }

  lemma AddressSaves(s: State, l: Label)
    requires Taken(s, l) == Some(GotIp)
    ensures var s' := Step(s, l);
            if s.requestRestore then s'.nvs == s.nvs && s'.locked == s.locked
            else SavedBy(s, s', s.config, l.failing)
  {
    hide WantsOf, Written, Stop, KeepsLock, Step;
    MessageStep(s, l);
  }

  lemma ErasureSaves(s: State, l: Label)
    requires Taken(s, l) == Some(Disconnected) && !s.requestConnect && s.requestDisconnect
    ensures SavedBy(s, Step(s, l), Config("", ""), l.failing)
  {
    hide WantsOf, Written, Stop, KeepsLock, Step;
    MessageStep(s, l);
  }

  // ------------------------------------------------------------------- shutdown timer

  /**
   * The timer that shuts the access point down, after any step from any state: started by an address
   * with the access point up, stopped by a disconnection or by firing, and otherwise as it was.
   */
  lemma ShutdownStep(s: State, l: Label)
    ensures Step(s, l).shutdownTimer
            <==> if Taken(s, l) == Some(GotIp) then s.shutdownTimer || s.apStarted
                 else if Taken(s, l) == Some(Disconnected) || l.ShutdownTimerFires? then false
                 else s.shutdownTimer
  {
    hide Step;
    if Taken(s, l).Some? {
      ShutdownTaken(s, l, s.queue[0]);
    } else {
      ShutdownEvent(s, l);
    }
  }

  lemma ShutdownEvent(s: State, l: Label)
    requires Taken(s, l).None?
    ensures Step(s, l).shutdownTimer <==> !l.ShutdownTimerFires? && s.shutdownTimer
  {
    if l.Process? {
    } else if l.RetryTimerFires? || l.ShutdownTimerFires? {
      TimerExactly(s, l);
    } else {
      OthersKeepTimers(s, l);
    }
  }

  lemma OthersKeepTimers(s: State, l: Label)
    requires !l.Process? && !l.RetryTimerFires? && !l.ShutdownTimerFires?
    ensures Step(s, l).shutdownTimer == s.shutdownTimer
  {
    match l
    case DriverScanDone =>
    case DriverDisconnected =>
    case DriverGotIp =>
    case DriverApStarted =>
    case DriverApStopped =>
    case UserConnects(_) =>
    case UserDisconnects =>
    case UserScans =>
    case ButtonPressed =>
  }

  lemma DisconnectionTaken(s: State, l: Label)
    requires Taken(s, l) == Some(Disconnected)
    ensures !Step(s, l).shutdownTimer
    ensures Step(s, l).requestRestore <==> (s.requestConnect || s.requestDisconnect) && s.requestRestore
  {
    if s.requestConnect {
      AttemptExactly(s, l);
    } else if s.requestDisconnect {
      ErasureExactly(s, l);
    } else {
      LossExactly(s, l);
    }
  }

  lemma ShutdownTaken(s: State, l: Label, m: Message)
    requires Taken(s, l) == Some(m)
    ensures Step(s, l).shutdownTimer
            <==> if m == GotIp then s.shutdownTimer || s.apStarted
                 else if m == Disconnected then false
                 else s.shutdownTimer
  {
    hide Step, Taken;
    if m == GotIp {
      AddressExactly(s, l);
    } else if m == LoadAndRestore {
      LoadKeeps(s, l);
    } else if m == Disconnected {
      DisconnectionTaken(s, l);
    } else {
      RequestExactly(s, l, m);
    }
  }

  /** A restore attempt lasts from its order to the next address or lost connection. */
  lemma RestoreStep(s: State, l: Label)
    ensures Step(s, l).requestRestore
            <==> if Taken(s, l) == Some(Connect(Restore)) then true
                 else if Taken(s, l) == Some(GotIp) then false
                 else if Taken(s, l) == Some(Disconnected) && !s.requestConnect && !s.requestDisconnect then false
                 else s.requestRestore
  {
    hide Step;
    if Taken(s, l).Some? {
      RestoreTaken(s, l, s.queue[0]);
    } else {
      OnlyMessagesCount(s, l);
    }
  }

  lemma RestoreTaken(s: State, l: Label, m: Message)
    requires Taken(s, l) == Some(m)
    ensures Step(s, l).requestRestore
            <==> if m == Connect(Restore) then true
                 else if m == GotIp then false
                 else if m == Disconnected && !s.requestConnect && !s.requestDisconnect then false
                 else s.requestRestore
  {
    hide Step, Taken;
    if m == GotIp {
      AddressExactly(s, l);
    } else if m == LoadAndRestore {
      LoadKeeps(s, l);
    } else if m == Disconnected {
      DisconnectionTaken(s, l);
    } else {
      RequestExactly(s, l, m);
    }
  }

  /** Step k of the run takes an address with the access point up. */
  predicate StartsShutdown(s: State, run: seq<Label>, k: nat)
    requires k < |run|
  {
    Taken(Run(s, run[..k]), run[k]) == Some(GotIp) && Run(s, run[..k]).apStarted
  }

  /** Step k of the run takes a disconnection, or is the timer itself firing. */
  predicate StopsShutdown(s: State, run: seq<Label>, k: nat)
    requires k < |run|
  {
    run[k].ShutdownTimerFires? || Taken(Run(s, run[..k]), run[k]) == Some(Disconnected)
  }

  predicate RunsSince(s: State, run: seq<Label>, k: nat)
    requires k < |run|
  {
    StartsShutdown(s, run, k) && forall j :: k < j < |run| ==> !StopsShutdown(s, run, j)
  }

  /** Some step started the timer, and no later one stopped it. */
  predicate Started(s: State, run: seq<Label>)
  {
    exists k :: 0 <= k < |run| && RunsSince(s, run, k)
  }

  /**
   * Main result: over every run the shutdown timer runs if and only if some step took an address with
   * the access point up, and since then no disconnection was taken and the timer has not fired.
   */
  lemma {:induction false} ShutdownTimerMeansAddress(s: State, run: seq<Label>)
    requires Initial(s)
    ensures Run(s, run).shutdownTimer <==> Started(s, run)
  {
    if run != [] {
      hide Step, Started, Taken;
      ShutdownTimerMeansAddress(s, Front(run));
      ShutdownStep(Run(s, Front(run)), Last(run));
      assert run[..|run| - 1] == Front(run);
      StartedStep(s, run);
    }
  }

  lemma StartedStep(s: State, run: seq<Label>)
    requires run != []
    ensures var n := |run| - 1;
            Started(s, run)
            <==> StartsShutdown(s, run, n) || (Started(s, Front(run)) && !StopsShutdown(s, run, n))
  {
    hide StartsShutdown, StopsShutdown;
    var n := |run| - 1;
    forall k | 0 <= k < n ensures RunsSince(s, run, k) <==> RunsSince(s, Front(run), k) && !StopsShutdown(s, run, n) {
      PrefixRuns(s, run, k);
    }
    assert RunsSince(s, run, n) <==> StartsShutdown(s, run, n);
  }

  lemma PrefixRuns(s: State, run: seq<Label>, k: nat)
    requires k < |run| - 1
    ensures RunsSince(s, run, k) <==> RunsSince(s, Front(run), k) && !StopsShutdown(s, run, |run| - 1)
  {
    hide Run, Taken;
    var front := Front(run);
    forall j | 0 <= j < |front| ensures front[..j] == run[..j] && front[j] == run[j] { }
    assert forall j :: k < j < |front| ==> (StopsShutdown(s, front, j) <==> StopsShutdown(s, run, j));
  }
}
