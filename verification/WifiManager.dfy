/**
 * The Wi-Fi manager task: one step for every message it takes from its queue, and one for every
 * event of the driver, the timers, the web page and the button.
 */
module WifiManager {
  import Bits
  import opened Wrappers
  import opened WifiConfig
  import opened StatusJson

  /** A configuration option of the build without a range, so any number. */
  const MAX_RETRY_START_AP: int

  datatype Requester = User | AutoReconnect | Restore

  datatype Message =
    | ScanDone
    | StartScan
    | LoadAndRestore
    | Connect(origin: Requester)
    | Disconnected
    | StartAp
    | StopAp
    | GotIp
    | DisconnectSta

  /** Event bits, counter, timers, configuration in memory and flash, the flash's lock, and the queue. */
  datatype State = State(connected: bool, apStarted: bool, scanning: bool, requestConnect: bool,
                         requestRestore: bool, requestDisconnect: bool, retries: Bits.byte,
                         retryTimer: bool, shutdownTimer: bool, config: Config, settings: Settings,
                         nvs: Nvs, locked: bool, shown: Option<Reason>, queue: seq<Message>)

  /** What a disconnection means, decided by the request bits. */
  datatype Cause = FailedConnect | AskedFor | Lost

  function CauseOf(s: State): Cause
  {
    if s.requestConnect then FailedConnect else if s.requestDisconnect then AskedFor else Lost
  }

  function Send(s: State, m: Message): State
  {
    s.(queue := s.queue + [m])
  }

  /** Saving, with the operations that fail; the error is ignored, the lock may stay taken. */
  function Save(s: State, failing: set<Operation>): State
  {
    var w := WantsOf(s.config, s.settings, s.nvs, failing);
    s.(nvs := Written(s.config, s.settings, s.nvs, w, Stop(w, failing)),
       locked := KeepsLock(s.config, s.settings, s.nvs, failing))
  }

  lemma SaveFrame(s: State, failing: set<Operation>)
    ensures var s' := Save(s, failing); s' == s.(nvs := s'.nvs, locked := s'.locked)
  {
    hide WantsOf, Stop, Written, KeepsLock;
  }

  // ------------------------------------------------------------ the message handlers

  function HandleLoad(s: State, failing: set<Operation>): State
  {
    var f := FetchWith(s.config, s.settings, s.nvs, failing);
    Send(s.(config := f.config, settings := f.settings), if f.found then Connect(Restore) else StartAp)
  }

  function HandleConnect(s: State, origin: Requester): State
  {
    match origin
    case User => s.(requestConnect := true)
    case Restore => s.(requestRestore := true)
    case AutoReconnect => s
  }

  /** A user's attempt failed: no retry, by design. */
  function AttemptFailed(s: State): State
  {
    s.(requestConnect := false, shown := Some(FailedAttempt))
  }

  /** The user asked for it: the configuration is erased, in memory and in flash. */
  function Erased(s: State, failing: set<Operation>): State
  {
    Send(Save(s.(requestDisconnect := false, config := NO_CONFIG, shown := Some(UserDisconnect)), failing),
         StartAp)
  }

  /** Nobody asked for it: retry, and after too many losses bring the access point up. */
  function ConnectionLost(s: State): State
  {
    var s1 := s.(shown := Some(LostConnection), retryTimer := true, requestRestore := false);
    if s.apStarted then s1
    else if s.retries < MAX_RETRY_START_AP then s1.(retries := (s.retries + 1) % 256)
    else Send(s1.(retries := 0), StartAp)
  }

  function HandleDisconnected(s: State, failing: set<Operation>): State
  {
    var s1 := s.(shutdownTimer := false);
    match CauseOf(s)
    case FailedConnect => AttemptFailed(s1)
    case AskedFor => Erased(s1, failing)
    case Lost => ConnectionLost(s1)
  }

  function HandleGotIp(s: State, failing: set<Operation>): State
  {
    var s1 := if s.requestRestore then s.(requestRestore := false) else Save(s, failing);
    s1.(requestConnect := false, retries := 0, shown := Some(ConnectionOk),
        shutdownTimer := s.shutdownTimer || s.apStarted)
  }

  /** What the other messages leave behind: bits that ask for something. */
  function HandleRequest(s: State, m: Message): State
    requires m != LoadAndRestore && m != Disconnected && m != GotIp
  {
    match m
    case ScanDone => s
    case StartScan => s.(scanning := true)
    case Connect(origin) => HandleConnect(s, origin)
    case StartAp => s
    case StopAp => s
    case DisconnectSta => s.(requestDisconnect := true)
  }

  function Handle(s: State, m: Message, failing: set<Operation>): State
  {
    match m
    case LoadAndRestore => HandleLoad(s, failing)
    case Disconnected => HandleDisconnected(s, failing)
    case GotIp => HandleGotIp(s, failing)
    case _ => HandleRequest(s, m)
  }

  // What the handlers without a save leave alone.

  lemma ConnectFrame(s: State, origin: Requester)
    ensures HandleConnect(s, origin)
         == s.(requestConnect := s.requestConnect || origin == User,
               requestRestore := s.requestRestore || origin == Restore)
  {
    match origin
    case User =>
    case Restore =>
    case AutoReconnect =>
  }

  lemma RequestFrame(s: State, m: Message)
    requires m != LoadAndRestore && m != Disconnected && m != GotIp
    ensures var s' := HandleRequest(s, m);
            && s'.queue == s.queue && s'.config == s.config && s'.settings == s.settings
            && s'.nvs == s.nvs && s'.locked == s.locked && s'.retries == s.retries
            && s'.retryTimer == s.retryTimer && s'.shutdownTimer == s.shutdownTimer
            && s'.requestConnect == (s.requestConnect || m == Connect(User))
            && s'.requestRestore == (s.requestRestore || m == Connect(Restore))
            && s'.requestDisconnect == (s.requestDisconnect || m == DisconnectSta)
  {
    if m.Connect? {
      hide HandleConnect;
      ConnectFrame(s, m.origin);
    } else {
      BitsFrame(s, m);
    }
  }

  lemma BitsFrame(s: State, m: Message)
    requires m == ScanDone || m == StartScan || m == StartAp || m == StopAp || m == DisconnectSta
    ensures var s' := HandleRequest(s, m);
            s' == s.(scanning := s'.scanning, requestDisconnect := s.requestDisconnect || m == DisconnectSta)
  {
    match m
    case ScanDone =>
    case StartScan =>
    case StartAp =>
    case StopAp =>
    case DisconnectSta =>
  }

  // -------------------------------------------------------------------------- steps

  datatype Label =
    | Process(failing: set<Operation>)
    | DriverScanDone
    | DriverDisconnected
    | DriverGotIp
    | DriverApStarted
    | DriverApStopped
    | RetryTimerFires
    | ShutdownTimerFires
    | UserConnects(config: Config)
    | UserDisconnects
    | UserScans
    | ButtonPressed

  /** Handling the message takes the lock of the flash. */
  predicate NeedsStore(s: State, m: Message)
  {
    || m == LoadAndRestore
    || (m == GotIp && !s.requestRestore)
    || (m == Disconnected && CauseOf(s) == AskedFor)
  }

  /** The task waits for a lock that it holds itself. */
  predicate Blocked(s: State)
  {
    s.locked && s.queue != [] && NeedsStore(s, s.queue[0])
  }

  /** One turn of the task: it takes the next message, if there is one and it can. */
  function Turn(s: State, failing: set<Operation>): State
  {
    if s.queue == [] || Blocked(s) then s else Handle(s.(queue := s.queue[1..]), s.queue[0], failing)
  }

  predicate FromDriver(l: Label)
  {
    l.DriverScanDone? || l.DriverDisconnected? || l.DriverGotIp? || l.DriverApStarted? || l.DriverApStopped?
  }

  /** The callback of the driver. */
  function DriverEvent(s: State, l: Label): State
    requires FromDriver(l)
  {
    match l
    case DriverScanDone => Send(s.(scanning := false), ScanDone)
    case DriverDisconnected => Send(s.(connected := false, scanning := false), Disconnected)
    case DriverGotIp => Send(s.(connected := true), GotIp)
    case DriverApStarted => s.(apStarted := true)
    case DriverApStopped => s.(apStarted := false)
  }

  /** What the timers and the user do; a timer that is not running does not fire. */
  function Request(s: State, l: Label): State
    requires !l.Process? && !FromDriver(l)
  {
    match l
    case RetryTimerFires => if s.retryTimer then Send(s.(retryTimer := false), Connect(AutoReconnect)) else s
    case ShutdownTimerFires => if s.shutdownTimer then Send(s.(shutdownTimer := false), StopAp) else s
    case UserConnects(config) => Send(s.(config := config, shown := None), Connect(User))
    case UserDisconnects => Send(s, DisconnectSta)
    case UserScans => Send(s, StartScan)
    case ButtonPressed => Send(s, StartAp)
  }

  function Environment(s: State, l: Label): State
    requires !l.Process?
  {
    if FromDriver(l) then DriverEvent(s, l) else Request(s, l)
  }

  function Step(s: State, l: Label): State
  {
    if l.Process? then Turn(s, l.failing) else Environment(s, l)
  }

  function FailingOf(l: Label): set<Operation>
  {
    if l.Process? then l.failing else {}
  }

  /** The message the step takes from the queue, if it takes one. */
  function Taken(s: State, l: Label): Option<Message>
  {
    if l.Process? && s.queue != [] && !Blocked(s) then Some(s.queue[0]) else None
  }

  /** The task has started: nothing is set and the first message is to load the saved network. */
  predicate Initial(s: State)
  {
    && !s.connected && !s.apStarted && !s.scanning
    && !s.requestConnect && !s.requestRestore && !s.requestDisconnect
    && s.retries == 0 && !s.retryTimer && !s.shutdownTimer
    && s.config == NO_CONFIG && !s.locked && s.queue == [LoadAndRestore]
  }

  function Run(s: State, run: seq<Label>): State
  {
    if run == [] then s else Step(Run(s, Front(run)), Last(run))
  }

  function Front(run: seq<Label>): seq<Label>
    requires run != []
  {
    run[..|run| - 1]
  }

  function Last(run: seq<Label>): Label
    requires run != []
  {
    run[|run| - 1]
  }

  /** The message the last step of a run takes, and the state it finds. */
  predicate Processes(s: State, run: seq<Label>, m: Message)
  {
    run != [] && Taken(Run(s, Front(run)), Last(run)) == Some(m)
  }

  // ------------------------------------------------------------------ retry threshold

  /** The last step finds a lost connection with the access point down. */
  predicate LosesUncovered(s: State, run: seq<Label>)
  {
    Processes(s, run, Disconnected)
    && CauseOf(Run(s, Front(run))) == Lost && !Run(s, Front(run)).apStarted
  }

  /** Lost connections found with the access point down, since the last address was obtained. */
  function Losses(s: State, run: seq<Label>): nat
  {
    if run == [] then 0
    else if Processes(s, run, GotIp) then 0
    else Losses(s, Front(run)) + if LosesUncovered(s, run) then 1 else 0
  }

  /** After how many losses the counter is back at zero: it has eight bits. */
  function Period(max: int): (p: nat)
    ensures p > 0
  {
    if max < 0 then 1 else if max < 256 then max + 1 else 256
  }

  /** The counter is that number modulo its period, so it never exceeds a threshold of eight bits. */
  lemma RetriesCountLosses(s: State, run: seq<Label>)
    requires Initial(s)
    ensures Run(s, run).retries == Losses(s, run) % Period(MAX_RETRY_START_AP)
    ensures MAX_RETRY_START_AP >= 0 ==> Run(s, run).retries <= MAX_RETRY_START_AP
  {
    hide Run, Losses;
    RetriesAreResidue(s, run);
  }

  lemma {:induction false} RetriesAreResidue(s: State, run: seq<Label>)
    requires Initial(s)
    ensures Run(s, run).retries == Losses(s, run) % Period(MAX_RETRY_START_AP)
  {
    hide Run, Losses, Period;
    if run == [] {
      NoLosses(s);
    } else {
      RetriesAreResidue(s, Front(run));
      NextRetries(s, run);
    }
  }

  lemma NoLosses(s: State)
    requires Initial(s)
    ensures Run(s, []).retries == Losses(s, []) % Period(MAX_RETRY_START_AP) == 0
  {
  }

  /** One more step of a run, counted. */
  lemma NextRetries(s: State, run: seq<Label>)
    requires run != [] && Run(s, Front(run)).retries == Losses(s, Front(run)) % Period(MAX_RETRY_START_AP)
    ensures Run(s, run).retries == Losses(s, run) % Period(MAX_RETRY_START_AP)
  {
    hide Step, Period;
    RetryStep(Run(s, Front(run)), Last(run));
    Residue(Run(s, Front(run)).retries, Run(s, run).retries, Losses(s, Front(run)), Losses(s, run),
            Processes(s, run, GotIp), LosesUncovered(s, run));
  }

  lemma Residue(r: nat, r': nat, n: nat, n': nat, reset: bool, lost: bool)
    requires r == n % Period(MAX_RETRY_START_AP)
    requires r' == if reset then 0
                   else if lost then if r < MAX_RETRY_START_AP then (r + 1) % 256 else 0
                   else r
    requires n' == if reset then 0 else n + if lost then 1 else 0
    ensures r' == n' % Period(MAX_RETRY_START_AP)
  {
    if !reset && lost {
      hide Period;
      NextResidue(n, Period(MAX_RETRY_START_AP));
      CounterStep(r, MAX_RETRY_START_AP);
    }
  }

  /** The counter runs through its period. */
  lemma CounterStep(r: nat, max: int)
    requires r < Period(max)
    ensures (if r < max then (r + 1) % 256 else 0) == if r == Period(max) - 1 then 0 else r + 1
    ensures r >= max <==> max < 256 && r == Period(max) - 1
  {
  }

  /** The counter after n uncovered losses in a row, for any threshold. */
  function After(n: nat, max: int): Bits.byte
  {
    if n == 0 then 0
    else
      var r := After(n - 1, max);
      if r < max then (r + 1) % 256 else 0
  }

  lemma {:induction false} AfterLosses(n: nat, max: int)
    ensures After(n, max) == n % Period(max)
  {
    if n > 0 {
      hide Period;
      AfterLosses(n - 1, max);
      NextResidue(n - 1, Period(max));
      CounterStep(After(n - 1, max), max);
    }
  }

  /** The n-th loss in a row orders the access point. */
  predicate OrdersAp(n: nat, max: int)
    requires n > 0
  {
    After(n - 1, max) >= max
  }

  lemma OrdersApIff(n: nat, max: int)
    requires n > 0
    ensures OrdersAp(n, max) <==> max < 256 && n % Period(max) == 0
  {
    hide Period, After;
    AfterLosses(n - 1, max);
    NextResidue(n - 1, Period(max));
    CounterStep(After(n - 1, max), max);
  }

  /**
   * For which thresholds the access point is ordered on every (threshold + 1)-th loss: those the
   * eight-bit counter can reach. Beyond them it is never ordered.
   */
  lemma ThresholdHoldsIff(max: nat)
    ensures (forall n: nat :: n > 0 ==> (OrdersAp(n, max) <==> n % (max + 1) == 0)) <==> max < 256
    ensures max >= 256 ==> forall n: nat :: n > 0 ==> !OrdersAp(n, max)
  {
    forall n: nat | n > 0 ensures OrdersAp(n, max) <==> max < 256 && n % Period(max) == 0 {
      OrdersApIff(n, max);
    }
    assert (max + 1) % (max + 1) == 0;
    assert OrdersAp(max + 1, max) <==> max < 256 && (max + 1) % Period(max) == 0;
  }

  lemma NextResidue(n: nat, k: nat)
    requires k > 0
    ensures n % k < k
    ensures (n + 1) % k == if n % k == k - 1 then 0 else n % k + 1
  {
    var q, r := n / k, n % k;
    if r == k - 1 {
      assert n + 1 == (q + 1) * k;
      Bits.DivUnique(n + 1, k, q + 1, 0);
    } else {
      assert n + 1 == q * k + (r + 1);
      Bits.DivUnique(n + 1, k, q, r + 1);
    }
  }

  /** What a step does to the counter. */
  lemma RetryStep(s: State, l: Label)
    ensures Step(s, l).retries
         == if Taken(s, l) == Some(GotIp) then 0
            else if Taken(s, l) == Some(Disconnected) && CauseOf(s) == Lost && !s.apStarted then
              if s.retries < MAX_RETRY_START_AP then (s.retries + 1) % 256 else 0
            else s.retries
  {
    if Taken(s, l).Some? {
      RetryHandled(s.(queue := s.queue[1..]), s.queue[0], l.failing);
    } else {
      OnlyMessagesCount(s, l);
    }
  }

  /** Counter, timers, flash and the pending disconnection are as before. */
  predicate Steady(s: State, s': State)
  {
    && s'.retries == s.retries && s'.retryTimer == s.retryTimer
    && s'.shutdownTimer == s.shutdownTimer && s'.nvs == s.nvs && s'.locked == s.locked
    && s'.requestDisconnect == s.requestDisconnect
  }

  lemma OrdersAreSteady(s: State, origin: Requester, failing: set<Operation>)
    ensures Steady(s, HandleConnect(s, origin)) && Steady(s, HandleLoad(s, failing))
  {
    hide HandleConnect, FetchWith;
    ConnectFrame(s, origin);
  }

  lemma RequestIsSteady(s: State, m: Message)
    requires m != LoadAndRestore && m != Disconnected && m != GotIp
    ensures Steady(s, HandleRequest(s, m).(requestDisconnect := s.requestDisconnect))
    ensures HandleRequest(s, m).requestDisconnect == (s.requestDisconnect || m == DisconnectSta)
  {
    hide HandleRequest;
    RequestFrame(s, m);
  }

  lemma PlainHandled(s: State, m: Message, failing: set<Operation>)
    requires m != Disconnected && m != GotIp
    ensures Steady(s, Handle(s, m, failing).(requestDisconnect := s.requestDisconnect))
    ensures Handle(s, m, failing).requestDisconnect == (s.requestDisconnect || m == DisconnectSta)
  {
    hide HandleDisconnected, HandleGotIp, HandleRequest, HandleLoad;
    if m == LoadAndRestore {
      OrdersAreSteady(s, User, failing);
    } else {
      RequestIsSteady(s, m);
    }
  }

  lemma RetryHandled(s: State, m: Message, failing: set<Operation>)
    ensures Handle(s, m, failing).retries
         == if m == GotIp then 0
            else if m == Disconnected && CauseOf(s) == Lost && !s.apStarted then
              if s.retries < MAX_RETRY_START_AP then (s.retries + 1) % 256 else 0
            else s.retries
    ensures Handle(s, m, failing).retryTimer == (s.retryTimer || (m == Disconnected && CauseOf(s) == Lost))
  {
    hide WantsOf, Stop, Written, KeepsLock, FetchWith, HandleLoad, HandleConnect;
    match m
    case Disconnected =>
    case GotIp =>
    case _ => PlainHandled(s, m, failing);
  }

  /** Counter, requests and flash are as before, and no timer is started. */
  predicate Untouched(s: State, s': State)
  {
    && s'.retries == s.retries && (s'.retryTimer ==> s.retryTimer)
    && s'.requestDisconnect == s.requestDisconnect && s'.requestRestore == s.requestRestore
    && s'.requestConnect == s.requestConnect
    && s'.nvs == s.nvs && s'.locked == s.locked && (s'.shutdownTimer ==> s.shutdownTimer)
    && s'.settings == s.settings
  }

  lemma DriverUntouched(s: State, l: Label)
    requires FromDriver(l)
    ensures Untouched(s, DriverEvent(s, l))
  {
    match l
    case DriverScanDone =>
    case DriverDisconnected =>
    case DriverGotIp =>
    case DriverApStarted =>
    case DriverApStopped =>
  }

  lemma RequestUntouched(s: State, l: Label)
    requires !l.Process? && !FromDriver(l)
    ensures Untouched(s, Request(s, l))
  {
    match l
    case RetryTimerFires => if s.retryTimer { } else { }
    case ShutdownTimerFires => if s.shutdownTimer { } else { }
    case UserConnects(config) =>
    case UserDisconnects =>
    case UserScans =>
    case ButtonPressed =>
  }

  /** A step that takes no message leaves the counters, the requests and the flash alone. */
  lemma OnlyMessagesCount(s: State, l: Label)
    requires Taken(s, l).None?
    ensures Untouched(s, Step(s, l))
  {
    if l.Process? {
    } else if FromDriver(l) {
      DriverUntouched(s, l);
    } else {
      RequestUntouched(s, l);
    }
  }

  lemma LastStep(s: State, run: seq<Label>)
    requires run != [] && Taken(Run(s, Front(run)), Last(run)) == Some(Disconnected)
    ensures var before := Run(s, Front(run));
            Run(s, run) == HandleDisconnected(before.(queue := before.queue[1..]), Last(run).failing)
  {
    hide HandleDisconnected;
  }

  /** The threshold is reached in front of each loss whose number is a multiple of the period. */
  lemma NextLoss(s: State, run: seq<Label>)
    requires LosesUncovered(s, run)
    requires Run(s, Front(run)).retries == Losses(s, Front(run)) % Period(MAX_RETRY_START_AP)
    ensures Run(s, Front(run)).retries >= MAX_RETRY_START_AP
            <==> MAX_RETRY_START_AP < 256 && Losses(s, run) % Period(MAX_RETRY_START_AP) == 0
  {
    hide Run, Period;
    NextResidue(Losses(s, Front(run)), Period(MAX_RETRY_START_AP));
    CounterStep(Run(s, Front(run)).retries, MAX_RETRY_START_AP);
  }

  /**
   * A lost connection orders the access point exactly when its number among the uncovered losses
   * is a multiple of the period, and never when the threshold does not fit eight bits.
   */
  lemma ThresholdStartsAp(s: State, run: seq<Label>)
    requires Initial(s) && Processes(s, run, Disconnected) && CauseOf(Run(s, Front(run))) == Lost
    ensures var before, after := Run(s, Front(run)), Run(s, run);
            after.queue == before.queue[1..] +
              if !before.apStarted && MAX_RETRY_START_AP < 256 && Losses(s, run) % Period(MAX_RETRY_START_AP) == 0
              then [StartAp] else []
  {
    hide Run, Losses, Period, Handle;
    var before := Run(s, Front(run));
    RetriesCountLosses(s, Front(run));
    if !before.apStarted {
      NextLoss(s, run);
    }
    DisconnectionSends(before.(queue := before.queue[1..]), FailingOf(Last(run)));
    LastStep(s, run);
  }

  /** Failed user connects and user disconnects neither count nor arm the retry timer. */
  lemma OnlyLossesRetry(s: State, l: Label)
    requires Step(s, l).retries > s.retries || (Step(s, l).retryTimer && !s.retryTimer)
    ensures Taken(s, l) == Some(Disconnected) && CauseOf(s) == Lost
  {
    if Taken(s, l).Some? {
      RetryHandled(s.(queue := s.queue[1..]), s.queue[0], l.failing);
    } else {
      OnlyMessagesCount(s, l);
    }
  }

  // --------------------------------------------------------------------- erase safety

  /** The last step erases the configuration. */
  predicate Erases(s: State, run: seq<Label>)
  {
    Processes(s, run, Disconnected) && CauseOf(Run(s, Front(run))) == AskedFor
  }

  function Erasures(s: State, run: seq<Label>): nat
  {
    if run == [] then 0 else Erasures(s, Front(run)) + if Erases(s, run) then 1 else 0
  }

  /** How often a message was processed. */
  function Orders(s: State, run: seq<Label>, m: Message): nat
  {
    if run == [] then 0 else Orders(s, Front(run), m) + if Processes(s, run, m) then 1 else 0
  }

  /** Every erasure was ordered: at no time are there more than orders taken from the queue. */
  lemma {:induction false} EraseSafety(s: State, run: seq<Label>)
    requires Initial(s)
    ensures Erasures(s, run) + (if Run(s, run).requestDisconnect then 1 else 0) <= Orders(s, run, DisconnectSta)
  {
    if run != [] {
      EraseSafety(s, Front(run));
      PendingStep(Run(s, Front(run)), Last(run));
    }
  }

  lemma PendingStep(s: State, l: Label)
    ensures Step(s, l).requestDisconnect
         == if Taken(s, l) == Some(DisconnectSta) then true
            else if Taken(s, l) == Some(Disconnected) && CauseOf(s) == AskedFor then false
            else s.requestDisconnect
  {
    if Taken(s, l).Some? {
      PendingHandled(s.(queue := s.queue[1..]), s.queue[0], l.failing);
    } else {
      OnlyMessagesCount(s, l);
    }
  }

  lemma PendingHandled(s: State, m: Message, failing: set<Operation>)
    ensures Handle(s, m, failing).requestDisconnect
         == if m == DisconnectSta then true
            else if m == Disconnected && CauseOf(s) == AskedFor then false
            else s.requestDisconnect
  {
    hide WantsOf, Stop, Written, KeepsLock, FetchWith, HandleLoad, HandleConnect;
    match m
    case Disconnected =>
    case GotIp =>
    case _ => PlainHandled(s, m, failing);
  }

  /** The messages only a user sends, and the action that sends them. */
  predicate FromUser(m: Message)
  {
    m == DisconnectSta || m == Connect(User)
  }

  predicate Asks(l: Label, m: Message)
  {
    if m == DisconnectSta then l.UserDisconnects? else l.UserConnects?
  }

  function Asked(run: seq<Label>, m: Message): nat
  {
    if run == [] then 0 else Asked(Front(run), m) + if Asks(Last(run), m) then 1 else 0
  }

  /** What handling a message appends to the queue. */
  function Sends(s: State, m: Message, failing: set<Operation>): (q: seq<Message>)
    ensures DisconnectSta !in q && Connect(User) !in q
  {
    match m
    case LoadAndRestore =>
      if FetchWith(s.config, s.settings, s.nvs, failing).found then [Connect(Restore)] else [StartAp]
    case Disconnected => (
      match CauseOf(s)
      case FailedConnect => []
      case AskedFor => [StartAp]
      case Lost => if !s.apStarted && s.retries >= MAX_RETRY_START_AP then [StartAp] else [])
    case _ => []
  }

  lemma HandlerSends(s: State, m: Message, failing: set<Operation>)
    ensures Handle(s, m, failing).queue == s.queue + Sends(s, m, failing)
  {
    hide HandleDisconnected, HandleLoad, HandleGotIp, HandleRequest;
    match m
    case LoadAndRestore => LoadSends(s, failing);
    case Disconnected => DisconnectionSends(s, failing);
    case GotIp => AddressSendsNothing(s, failing);
    case _ => RequestSendsNothing(s, m);
  }

  lemma LoadSends(s: State, failing: set<Operation>)
    ensures HandleLoad(s, failing).queue == s.queue + Sends(s, LoadAndRestore, failing)
  {
    hide FetchWith;
  }

  lemma RequestSendsNothing(s: State, m: Message)
    requires m != LoadAndRestore && m != Disconnected && m != GotIp
    ensures HandleRequest(s, m).queue == s.queue
  {
    hide HandleRequest;
    RequestFrame(s, m);
  }

  lemma AddressSendsNothing(s: State, failing: set<Operation>)
    ensures HandleGotIp(s, failing).queue == s.queue
  {
    hide Save;
    SaveFrame(s, failing);
  }

  lemma DisconnectionSends(s: State, failing: set<Operation>)
    ensures HandleDisconnected(s, failing).queue == s.queue + Sends(s, Disconnected, failing)
  {
    hide WantsOf, Stop, Written, KeepsLock, FetchWith;
    assert s.queue + [] == s.queue;
  }

  function Queued(q: seq<Message>, m: Message): nat
  {
    multiset(q)[m]
  }

  /** Taking the head of a queue and appending other messages. */
  lemma TakeCounts(q: seq<Message>, more: seq<Message>, m: Message)
    requires q != [] && m !in more
    ensures Queued(q[1..] + more, m) + (if q[0] == m then 1 else 0) == Queued(q, m)
  {
    assert q == [q[0]] + q[1..];
  }

  lemma AppendCounts(q: seq<Message>, more: seq<Message>, m: Message)
    requires |more| <= 1
    ensures Queued(q + more, m) == Queued(q, m) + if m in more then 1 else 0
  {
    if more != [] {
      assert more == [more[0]];
    }
  }

  lemma QueueStep(s: State, l: Label, m: Message)
    requires FromUser(m)
    ensures Queued(Step(s, l).queue, m) + (if Taken(s, l) == Some(m) then 1 else 0)
         == Queued(s.queue, m) + if Asks(l, m) then 1 else 0
  {
    if Taken(s, l).Some? {
      hide Handle, Sends, Queued;
      var t := s.(queue := s.queue[1..]);
      HandlerSends(t, s.queue[0], l.failing);
      assert m !in Sends(t, s.queue[0], l.failing);
      TakeCounts(s.queue, Sends(t, s.queue[0], l.failing), m);
    } else if !l.Process? {
      hide Environment, Queued;
      QueueGrows(s, l);
      AppendCounts(s.queue, Appended(s, l), m);
    }
  }

  /** What only a user sends is in the queue or processed once for every time the user asked. */
  lemma {:induction false} OrdersComeFromUser(s: State, run: seq<Label>, m: Message)
    requires Initial(s) && FromUser(m)
    ensures Orders(s, run, m) + Queued(Run(s, run).queue, m) == Asked(run, m)
  {
    hide Step, Taken;
    if run != [] {
      OrdersComeFromUser(s, Front(run), m);
      QueueStep(Run(s, Front(run)), Last(run), m);
    }
  }

  /** The configuration is erased at most as often as the user asked to disconnect. */
  lemma EraseNeedsUser(s: State, run: seq<Label>)
    requires Initial(s)
    ensures Erasures(s, run) <= Asked(run, DisconnectSta)
  {
    EraseSafety(s, run);
    OrdersComeFromUser(s, run, DisconnectSta);
  }

  /** The disconnections taken for a failed attempt of the user. */
  function FailedAttempts(s: State, run: seq<Label>): nat
  {
    if run == [] then 0
    else
      FailedAttempts(s, Front(run))
      + if Processes(s, run, Disconnected) && CauseOf(Run(s, Front(run))) == FailedConnect then 1 else 0
  }

  /** Neither the retry timer nor a restore is ever taken for the user: each failure was asked for. */
  lemma FailuresNeedUser(s: State, run: seq<Label>)
    requires Initial(s)
    ensures FailedAttempts(s, run) <= Asked(run, Connect(User))
  {
    FailuresWereOrdered(s, run);
    OrdersComeFromUser(s, run, Connect(User));
  }

  lemma {:induction false} FailuresWereOrdered(s: State, run: seq<Label>)
    requires Initial(s)
    ensures FailedAttempts(s, run) + (if Run(s, run).requestConnect then 1 else 0) <= Orders(s, run, Connect(User))
  {
    if run != [] {
      hide Step;
      FailuresWereOrdered(s, Front(run));
      AttemptStep(Run(s, Front(run)), Last(run));
    }
  }

  lemma AttemptStep(s: State, l: Label)
    ensures Step(s, l).requestConnect
         == if Taken(s, l) == Some(Connect(User)) then true
            else if Taken(s, l) == Some(Disconnected) || Taken(s, l) == Some(GotIp) then false
            else s.requestConnect
  {
    if Taken(s, l).Some? {
      hide Handle;
      AttemptHandled(s.(queue := s.queue[1..]), s.queue[0], l.failing);
    } else {
      OnlyMessagesCount(s, l);
    }
  }

  lemma NoAttemptIsLeft(s: State, failing: set<Operation>)
    ensures !HandleDisconnected(s, failing).requestConnect
  {
    hide Save;
    match CauseOf(s)
    case FailedConnect =>
    case AskedFor =>
      SaveFrame(s.(shutdownTimer := false, requestDisconnect := false, config := NO_CONFIG,
                   shown := Some(UserDisconnect)), failing);
    case Lost =>
  }

  lemma RequestAttempts(s: State, m: Message)
    requires m != LoadAndRestore && m != Disconnected && m != GotIp
    ensures HandleRequest(s, m).requestConnect == (s.requestConnect || m == Connect(User))
  {
    hide HandleRequest;
    RequestFrame(s, m);
  }

  lemma AttemptHandled(s: State, m: Message, failing: set<Operation>)
    ensures Handle(s, m, failing).requestConnect
         == if m == Connect(User) then true
            else if m == Disconnected || m == GotIp then false
            else s.requestConnect
  {
    hide FetchWith, HandleDisconnected, HandleRequest, Save;
    match m
    case LoadAndRestore =>
    case Disconnected => NoAttemptIsLeft(s, failing);
    case GotIp =>
    case _ => RequestAttempts(s, m);
  }

  /**
   * The saved network changes in no other way: a step that alters what the flash says is an
   * address obtained on a connection that was not restored, or an ordered erasure.
   */
  lemma FlashChangesOnlyOnPurpose(s: State, l: Label)
    requires Step(s, l).nvs != s.nvs
    ensures || (Taken(s, l) == Some(GotIp) && !s.requestRestore)
            || (Taken(s, l) == Some(Disconnected) && CauseOf(s) == AskedFor)
    ensures Holds(Step(s, l).nvs, Step(s, l).config) <==> Reaches(Step(s, l).config, s.nvs, FailingOf(l))
  {
    hide Handle, Holds, Reaches;
    if Taken(s, l).Some? {
      FlashHandled(s.(queue := s.queue[1..]), s.queue[0], l.failing);
    } else {
      OnlyMessagesCount(s, l);
    }
  }

  lemma FlashHandled(s: State, m: Message, failing: set<Operation>)
    ensures var s' := Handle(s, m, failing);
            s'.nvs != s.nvs ==>
              && (Holds(s'.nvs, s'.config) <==> Reaches(s'.config, s.nvs, failing))
              && ((m == GotIp && !s.requestRestore) || (m == Disconnected && CauseOf(s) == AskedFor))
  {
    hide WantsOf, Stop, Written, KeepsLock, FetchWith, Holds, HandleLoad, HandleConnect;
    match m
    case Disconnected => SavedUnlessOperationFails(NO_CONFIG, s.settings, s.nvs, failing);
    case GotIp => SavedUnlessOperationFails(s.config, s.settings, s.nvs, failing);
    case _ => PlainHandled(s, m, failing);
  }

  // ---------------------------------------------------------------- the lock of the flash

  /** The step saves, and what it saves. */
  predicate Saves(s: State, l: Label)
  {
    (Taken(s, l) == Some(GotIp) && !s.requestRestore) || (Taken(s, l) == Some(Disconnected) && CauseOf(s) == AskedFor)
  }

  function SavedConfig(s: State, l: Label): Config
  {
    if Taken(s, l) == Some(GotIp) then s.config else NO_CONFIG
  }

  /** The lock stays taken exactly after a save that reaches its end with an error. */
  lemma LockKeptIff(s: State, l: Label)
    ensures Step(s, l).locked
            <==> if Saves(s, l) then KeepsLock(SavedConfig(s, l), s.settings, s.nvs, FailingOf(l)) else s.locked
  {
    if Taken(s, l).Some? {
      hide Handle, KeepsLock;
      LockHandled(s.(queue := s.queue[1..]), s.queue[0], l.failing);
    } else {
      hide Handle, Environment, KeepsLock;
      OnlyMessagesCount(s, l);
    }
  }

  lemma LockHandled(s: State, m: Message, failing: set<Operation>)
    ensures Handle(s, m, failing).locked
            <==> if m == GotIp && !s.requestRestore then KeepsLock(s.config, s.settings, s.nvs, failing)
                 else if m == Disconnected && CauseOf(s) == AskedFor then
                   KeepsLock(NO_CONFIG, s.settings, s.nvs, failing)
                 else s.locked
  {
    hide WantsOf, Stop, Written, KeepsLock, FetchWith, HandleLoad, HandleRequest;
    match m
    case Disconnected =>
    case GotIp =>
    case _ => PlainHandled(s, m, failing);
  }

  /** Once the lock is kept no later message changes the flash, whatever happens. */
  lemma {:induction false} LockedFlashIsFrozen(s: State, run: seq<Label>)
    requires s.locked
    ensures Run(s, run).locked && Run(s, run).nvs == s.nvs
  {
    if run != [] {
      hide Step;
      var before := Run(s, Front(run));
      LockedFlashIsFrozen(s, Front(run));
      LockKeptIff(before, Last(run));
      LockedDoesNotSave(before, Last(run));
      if Step(before, Last(run)).nvs != before.nvs {
        FlashChangesOnlyOnPurpose(before, Last(run));
      }
    }
  }

  lemma LockedDoesNotSave(s: State, l: Label)
    requires s.locked
    ensures !Saves(s, l)
  {
  }

  /** A task that waits for its own lock waits for ever: its queue only grows. */
  lemma {:induction false} BlockedForEver(s: State, run: seq<Label>)
    requires Blocked(s)
    ensures Blocked(Run(s, run)) && s.queue <= Run(s, run).queue
  {
    if run != [] {
      hide Step, Blocked;
      BlockedForEver(s, Front(run));
      BlockedStep(Run(s, Front(run)), Last(run));
    }
  }

  lemma BlockedStep(s: State, l: Label)
    requires Blocked(s)
    ensures Blocked(Step(s, l)) && s.queue <= Step(s, l).queue
  {
    hide Handle, Environment, Appended;
    if !l.Process? {
      OnlyMessagesCount(s, l);
      QueueGrows(s, l);
    }
  }

  /** There are settings to compare with, in flash or worth storing. */
  predicate Comparable(s: State)
  {
    s.nvs.settings.Some? || s.settings.compared != ZEROED.compared
  }

  lemma ComparableHandled(s: State, m: Message, failing: set<Operation>)
    requires Comparable(s)
    ensures Comparable(Handle(s, m, failing))
  {
    hide HandleDisconnected, HandleGotIp, HandleRequest;
    match m
    case LoadAndRestore =>
    case Disconnected => DisconnectionComparable(s, failing);
    case GotIp => AddressComparable(s, failing);
    case _ => RequestFrame(s, m);
  }

  lemma SaveComparable(s: State, failing: set<Operation>)
    requires Comparable(s)
    ensures Comparable(Save(s, failing))
  {
    hide WantsOf, Stop, KeepsLock;
  }

  lemma AddressComparable(s: State, failing: set<Operation>)
    requires Comparable(s)
    ensures Comparable(HandleGotIp(s, failing))
  {
    hide Save;
    SaveComparable(s, failing);
    SaveFrame(s, failing);
  }

  lemma DisconnectionComparable(s: State, failing: set<Operation>)
    requires Comparable(s)
    ensures Comparable(HandleDisconnected(s, failing))
  {
    var s1 := s.(shutdownTimer := false);
    match CauseOf(s)
    case FailedConnect =>
    case AskedFor => ErasedComparable(s1, failing);
    case Lost => LossComparable(s1);
  }

  lemma ErasedComparable(s: State, failing: set<Operation>)
    requires Comparable(s)
    ensures Comparable(Erased(s, failing))
  {
    hide Save;
    var s1 := s.(requestDisconnect := false, config := NO_CONFIG, shown := Some(UserDisconnect));
    SaveComparable(s1, failing);
  }

  lemma LossComparable(s: State)
    requires Comparable(s)
    ensures Comparable(ConnectionLost(s))
  {
  }

  /**
   * With a flash in working order and settings that are not all zero the lock is never kept, so
   * the task never waits for it.
   */
  lemma {:induction false} WorkingFlashNeverBlocks(s: State, run: seq<Label>)
    requires Initial(s) && Comparable(s)
    requires forall k :: 0 <= k < |run| ==> FailingOf(run[k]) == {}
    ensures !Run(s, run).locked && !Blocked(Run(s, run)) && Comparable(Run(s, run))
  {
    if run != [] {
      hide Step, Comparable, KeepsLock;
      WorkingFlashNeverBlocks(s, Front(run));
      WorkingFlashStep(Run(s, Front(run)), Last(run));
    }
  }

  lemma WorkingFlashStep(s: State, l: Label)
    requires !s.locked && Comparable(s) && FailingOf(l) == {}
    ensures !Step(s, l).locked && Comparable(Step(s, l))
  {
    LockKeptIff(s, l);
    hide Handle, Environment, KeepsLock;
    NothingFails(SavedConfig(s, l), s.settings, s.nvs);
    if Taken(s, l).Some? {
      ComparableHandled(s.(queue := s.queue[1..]), s.queue[0], l.failing);
    } else {
      OnlyMessagesCount(s, l);
    }
  }

  // ---------------------------------------------------------------- persistence

  /** A restore attempt is under way: ordered, or in the queue. */
  predicate Restoring(s: State)
  {
    s.requestRestore || Connect(Restore) in s.queue
  }

  /** The flash works, and no user changes the configuration during a restore attempt. */
  predicate Undisturbed(s: State, l: Label)
  {
    && (l.Process? ==> l.failing == {})
    && (l.UserConnects? && Restoring(s) ==> l.config == s.config)
  }

  predicate UndisturbedRun(s: State, run: seq<Label>)
  {
    run != [] ==> UndisturbedRun(s, Front(run)) && Undisturbed(Run(s, Front(run)), Last(run))
  }

  /** The order to load comes once, at the head of the queue, before any restore attempt. */
  predicate LoadsFirst(s: State)
  {
    LoadAndRestore in s.queue ==>
      s.queue[0] == LoadAndRestore && LoadAndRestore !in s.queue[1..] && !Restoring(s)
  }

  predicate RestoreInvariant(s: State)
  {
    LoadsFirst(s) && (Restoring(s) ==> Holds(s.nvs, s.config))
  }

  lemma RestoringKeepsFlash(s: State, l: Label)
    requires RestoreInvariant(s) && Undisturbed(s, l)
    ensures RestoreInvariant(Step(s, l))
  {
    if Taken(s, l).Some? {
      hide Handle;
      var t := s.(queue := s.queue[1..]);
      assert s.queue == [s.queue[0]] + t.queue;
      RestoringHandled(t, s.queue[0]);
    } else if !l.Process? {
      hide Environment, Appended;
      OnlyMessagesCount(s, l);
      QueueGrows(s, l);
      AppendKeepsOrders(s.queue, Appended(s, l));
    }
  }

  /** What a step appends to the queue when it takes no message. */
  function Appended(s: State, l: Label): (m: seq<Message>)
    requires !l.Process?
    ensures |m| <= 1 && LoadAndRestore !in m && Connect(Restore) !in m
  {
    match l
    case DriverScanDone => [ScanDone]
    case DriverDisconnected => [Disconnected]
    case DriverGotIp => [GotIp]
    case DriverApStarted => []
    case DriverApStopped => []
    case RetryTimerFires => if s.retryTimer then [Connect(AutoReconnect)] else []
    case ShutdownTimerFires => if s.shutdownTimer then [StopAp] else []
    case UserConnects(_) => [Connect(User)]
    case UserDisconnects => [DisconnectSta]
    case UserScans => [StartScan]
    case ButtonPressed => [StartAp]
  }

  lemma DriverSends(s: State, l: Label)
    requires FromDriver(l)
    ensures DriverEvent(s, l).queue == s.queue + Appended(s, l) && DriverEvent(s, l).config == s.config
  {
    match l
    case DriverScanDone =>
    case DriverDisconnected =>
    case DriverGotIp =>
    case DriverApStarted =>
    case DriverApStopped =>
  }

  lemma RequestSends(s: State, l: Label)
    requires !l.Process? && !FromDriver(l)
    ensures Request(s, l).queue == s.queue + Appended(s, l)
    ensures Request(s, l).config == if l.UserConnects? then l.config else s.config
  {
    match l
    case RetryTimerFires => if s.retryTimer { } else { }
    case ShutdownTimerFires => if s.shutdownTimer { } else { }
    case UserConnects(_) =>
    case UserDisconnects =>
    case UserScans =>
    case ButtonPressed =>
  }

  lemma QueueGrows(s: State, l: Label)
    requires !l.Process?
    ensures Environment(s, l).queue == s.queue + Appended(s, l)
    ensures Environment(s, l).config == s.config || (l.UserConnects? && Environment(s, l).config == l.config)
  {
    hide DriverEvent, Request, Appended;
    if FromDriver(l) {
      DriverSends(s, l);
    } else {
      RequestSends(s, l);
    }
  }

  /** Appending other messages neither orders to load nor to restore. */
  lemma AppendKeepsOrders(q: seq<Message>, more: seq<Message>)
    requires LoadAndRestore !in more && Connect(Restore) !in more
    ensures LoadAndRestore in q + more <==> LoadAndRestore in q
    ensures Connect(Restore) in q + more <==> Connect(Restore) in q
    ensures q != [] ==> (q + more)[0] == q[0] && (q + more)[1..] == q[1..] + more
    ensures q != [] ==> (LoadAndRestore in (q + more)[1..] <==> LoadAndRestore in q[1..])
  {
  }

  /** Handling a message taken from the queue, the rest of which is s.queue. */
  lemma RestoringHandled(s: State, m: Message)
    requires LoadAndRestore !in s.queue
    requires m == LoadAndRestore ==> !Restoring(s)
    requires (Restoring(s) || m == Connect(Restore)) ==> Holds(s.nvs, s.config)
    ensures RestoreInvariant(Handle(s, m, {}))
  {
    hide HandleLoad, HandleDisconnected, HandleGotIp, HandleRequest, RestoreInvariant, Holds;
    match m
    case LoadAndRestore => LoadHandled(s);
    case Disconnected => DisconnectionHandled(s);
    case GotIp => AddressHandled(s);
    case _ => OtherHandled(s, m);
  }

  lemma OtherHandled(s: State, m: Message)
    requires LoadAndRestore !in s.queue && !m.LoadAndRestore? && !m.Disconnected? && !m.GotIp?
    requires (Restoring(s) || m == Connect(Restore)) ==> Holds(s.nvs, s.config)
    ensures RestoreInvariant(HandleRequest(s, m))
  {
    hide HandleRequest, Holds, LoadsFirst;
    RequestFrame(s, m);
    SameOrders(s, HandleRequest(s, m));
  }

  lemma SameOrders(s: State, s': State)
    requires LoadAndRestore !in s.queue && s'.queue == s.queue && s'.nvs == s.nvs && s'.config == s.config
    requires Restoring(s') ==> Holds(s.nvs, s.config)
    ensures RestoreInvariant(s')
  {
  }

  lemma AddressHandled(s: State)
    requires LoadAndRestore !in s.queue
    requires Restoring(s) ==> Holds(s.nvs, s.config)
    ensures RestoreInvariant(HandleGotIp(s, {}))
  {
    hide Save, Holds;
    SaveFrame(s, {});
    WorkingSaveHolds(s);
  }

  lemma LoadHandled(s: State)
    requires LoadAndRestore !in s.queue && !Restoring(s)
    ensures RestoreInvariant(HandleLoad(s, {}))
  {
    var f := FetchWith(s.config, s.settings, s.nvs, {});
    var last := if f.found then Connect(Restore) else StartAp;
    assert HandleLoad(s, {}).queue == s.queue + [last];
  }

  lemma DisconnectionHandled(s: State)
    requires LoadAndRestore !in s.queue
    requires Restoring(s) ==> Holds(s.nvs, s.config)
    ensures RestoreInvariant(HandleDisconnected(s, {}))
  {
    hide WantsOf, Stop, Written, KeepsLock, FetchWith, Holds;
    hide Erased, ConnectionLost, RestoreInvariant;
    var s1 := s.(shutdownTimer := false);
    match CauseOf(s)
    case FailedConnect => SameOrders(s, AttemptFailed(s1));
    case AskedFor => ErasureHandled(s1);
    case Lost => LossHandled(s1);
  }

  lemma ErasureHandled(s: State)
    requires LoadAndRestore !in s.queue
    ensures RestoreInvariant(Erased(s, {}))
  {
    hide Save, Holds, Saved;
    var s1 := s.(requestDisconnect := false, config := NO_CONFIG, shown := Some(UserDisconnect));
    SaveFrame(s1, {});
    WorkingSaveHolds(s1);
    AppendKeepsOrders(s.queue, [StartAp]);
  }

  lemma SendKeepsOrders(s: State)
    requires RestoreInvariant(s)
    ensures RestoreInvariant(Send(s, StartAp))
  {
    hide Holds;
    AppendKeepsOrders(s.queue, [StartAp]);
  }

  lemma LossHandled(s: State)
    requires LoadAndRestore !in s.queue
    requires Restoring(s) ==> Holds(s.nvs, s.config)
    ensures RestoreInvariant(ConnectionLost(s))
  {
    hide Holds, RestoreInvariant;
    var s1 := s.(shown := Some(LostConnection), retryTimer := true, requestRestore := false);
    if s.apStarted {
      SameOrders(s, s1);
    } else if s.retries < MAX_RETRY_START_AP {
      SameOrders(s, s1.(retries := (s.retries + 1) % 256));
    } else {
      SameOrders(s, s1.(retries := 0));
      SendKeepsOrders(s1.(retries := 0));
    }
  }

  lemma WorkingSaveHolds(s: State)
    ensures Holds(Save(s, {}).nvs, s.config)
  {
    hide Holds, Saved, WantsOf, Stop, Written, KeepsLock;
    NothingFails(s.config, s.settings, s.nvs);
    SaveHolds(s.config, s.settings, s.nvs);
  }

  lemma {:induction false} FlashHoldsWhileRestoring(s: State, run: seq<Label>)
    requires Initial(s) && UndisturbedRun(s, run)
    ensures RestoreInvariant(Run(s, run))
  {
    if run != [] {
      FlashHoldsWhileRestoring(s, Front(run));
      RestoringKeepsFlash(Run(s, Front(run)), Last(run));
    }
  }

  /** Main result: after every address obtained, the flash says what the memory says. */
  lemma AddressMeansSaved(s: State, run: seq<Label>)
    requires Initial(s) && UndisturbedRun(s, run) && Processes(s, run, GotIp)
    ensures Holds(Run(s, run).nvs, Run(s, run).config)
  {
    var before := Run(s, Front(run));
    FlashHoldsWhileRestoring(s, Front(run));
    AddressSavesIff(before, Last(run));
    if !before.requestRestore {
      assert Reaches(before.config, before.nvs, {});
    }
  }

  /**
   * In any state and with any failing operations: an address leaves flash and memory in agreement
   * if and only if the save reaches what differs, or a restore skips the save and nothing does.
   */
  lemma AddressSavesIff(s: State, l: Label)
    requires Taken(s, l) == Some(GotIp)
    ensures Holds(Step(s, l).nvs, Step(s, l).config)
            <==> if s.requestRestore then Holds(s.nvs, s.config) else Reaches(s.config, s.nvs, l.failing)
  {
    SavedUnlessOperationFails(s.config, s.settings, s.nvs, l.failing);
  }

  /**
   * Without that care new credentials are lost: entered while the restore attempt is in the
   * queue, they connect and are never saved.
   */
  lemma InterruptedRestoreIsNotSaved(s: State, home: Config, cafe: Config)
    requires Initial(s) && home != cafe && home.ssid != ""
    requires s.nvs == Nvs(Some(home.ssid), Some(home.password), Some(s.settings))
    ensures var run := [Process({}), UserConnects(cafe), Process({}), Process({}), DriverGotIp,
                        Process({})];
            && Processes(s, run, GotIp) && Run(s, run).config == cafe
            && Run(s, run).nvs == s.nvs && !Holds(Run(s, run).nvs, cafe)
  {
    hide Step, Saved, Fetch;
    var s3 := RestoreBegins(s, home, cafe);
    var s5 := AddressArrives(s3, cafe);
    RestoredAddressIsNotSaved(s5);
    var front := [Process({}), UserConnects(cafe), Process({})] + [Process({}), DriverGotIp];
    RunAppend(s, [Process({}), UserConnects(cafe), Process({})], [Process({}), DriverGotIp]);
    var run := [Process({}), UserConnects(cafe), Process({}), Process({}), DriverGotIp, Process({})];
    assert Front(run) == front;
  }

  lemma RestoredAddressIsNotSaved(s: State)
    requires s.queue == [GotIp] && s.requestRestore
    ensures var s' := Step(s, Process({})); s'.nvs == s.nvs && s'.config == s.config
  {
    hide WantsOf, Stop, Written, KeepsLock, FetchWith;
  }

  lemma ProcessConnect(s: State, origin: Requester)
    requires s.queue != [] && s.queue[0] == Connect(origin)
    ensures Step(s, Process({}))
         == s.(queue := s.queue[1..], requestConnect := s.requestConnect || origin == User,
               requestRestore := s.requestRestore || origin == Restore)
  {
    hide HandleConnect;
    ConnectFrame(s.(queue := s.queue[1..]), origin);
  }

  lemma ProcessLoad(s: State, home: Config)
    requires Initial(s) && home.ssid != ""
    requires s.nvs == Nvs(Some(home.ssid), Some(home.password), Some(s.settings))
    ensures Step(s, Process({})) == s.(config := home, queue := [Connect(Restore)])
  {
    assert s.queue[1..] == [] && [] + [Connect(Restore)] == [Connect(Restore)];
  }

  lemma RestoreBegins(s: State, home: Config, cafe: Config) returns (s3: State)
    requires Initial(s) && home.ssid != ""
    requires s.nvs == Nvs(Some(home.ssid), Some(home.password), Some(s.settings))
    ensures s3 == Run(s, [Process({}), UserConnects(cafe), Process({})])
    ensures s3.queue == [Connect(User)] && s3.requestRestore && s3.nvs == s.nvs && s3.config == cafe
  {
    hide Turn;
    ProcessLoad(s, home);
    var s1 := Step(s, Process({}));
    var s2 := Step(s1, UserConnects(cafe));
    assert s2 == s1.(config := cafe, shown := None, queue := [Connect(Restore), Connect(User)]) by {
      assert [Connect(Restore)] + [Connect(User)] == [Connect(Restore), Connect(User)];
    }
    ProcessConnect(s2, Restore);
    s3 := Step(s2, Process({}));
    assert s2.queue[1..] == [Connect(User)];
    ThreeSteps(s, Process({}), UserConnects(cafe), Process({}));
  }

  lemma AddressArrives(s3: State, cafe: Config) returns (s5: State)
    requires s3.queue == [Connect(User)] && s3.requestRestore && s3.config == cafe
    ensures s5 == Run(s3, [Process({}), DriverGotIp])
    ensures s5.queue == [GotIp] && s5.requestRestore && s5.nvs == s3.nvs && s5.config == cafe
  {
    hide Turn;
    ProcessConnect(s3, User);
    var s4 := Step(s3, Process({}));
    assert s3.queue[1..] == [] && [] + [GotIp] == [GotIp];
    s5 := Step(s4, DriverGotIp);
    TwoSteps(s3, Process({}), DriverGotIp);
  }

  lemma {:induction false} RunAppend(s: State, run: seq<Label>, more: seq<Label>)
    ensures Run(s, run + more) == Run(Run(s, run), more)
    decreases |more|
  {
    hide Step;
    if more == [] {
      assert run + more == run;
    } else {
      RunAppend(s, run, Front(more));
      assert Front(run + more) == run + Front(more);
    }
  }

  lemma TwoSteps(s: State, a: Label, b: Label)
    ensures Run(s, [a, b]) == Step(Step(s, a), b)
  {
    hide Step;
    assert Front([a, b]) == [a] && Front([a]) == [];
    assert Run(s, []) == s;
    assert Run(s, [a]) == Step(s, a);
  }

  lemma ThreeSteps(s: State, a: Label, b: Label, c: Label)
    ensures Run(s, [a, b, c]) == Step(Step(Step(s, a), b), c)
  {
    hide Step;
    TwoSteps(s, a, b);
    assert Front([a, b, c]) == [a, b];
  }
}
