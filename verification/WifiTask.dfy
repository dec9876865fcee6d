/** The task as an object: its event bits, counter, timers and queue, and the store it saves to. */
module WifiTask {
  import opened Bits
  import opened Wrappers
  import opened WifiConfig
  import opened WifiManager
  import opened StatusJson

  class Task {
    const store: Store
    var connected: bool
    var apStarted: bool
    var scanning: bool
    var requestConnect: bool
    var requestRestore: bool
    var requestDisconnect: bool
    var retries: byte
    var retryTimer: bool
    var shutdownTimer: bool
    var shown: Option<Reason>
    var queue: seq<Message>

    ghost function Now(): State
      reads this, store
    {
      State(connected, apStarted, scanning, requestConnect, requestRestore, requestDisconnect, retries,
            retryTimer, shutdownTimer, store.config, store.settings, store.nvs, store.locked, shown, queue)
    }

    constructor (store: Store)
      requires !store.locked && store.config == NO_CONFIG
      ensures this.store == store && Initial(Now())
    {
      this.store := store;
      connected, apStarted, scanning := false, false, false;
      requestConnect, requestRestore, requestDisconnect := false, false, false;
      retries, retryTimer, shutdownTimer := 0, false, false;
      shown, queue := None, [LoadAndRestore];
    }

    method SendMessage(m: Message)
      modifies this`queue
      ensures Now() == Send(old(Now()), m)
    {
      queue := queue + [m];
    }

    /** Handling the message takes the lock of the flash, which the task itself kept. */
    method WouldBlock(m: Message) returns (blocked: bool)
      ensures blocked == (store.locked && NeedsStore(Now(), m))
    {
      blocked := store.locked
        && (m == LoadAndRestore || (m == GotIp && !requestRestore)
            || (m == Disconnected && !requestConnect && requestDisconnect));
    }

    /** One turn of the message loop. A task that would wait for its own lock never ends the turn. */
    method ProcessMessage() returns (blocked: bool)
      requires queue != []
      modifies this, store
      ensures blocked == old(Blocked(Now()))
      ensures Now() == Step(old(Now()), Process(old(store.failing)))
    {
      blocked := WouldBlock(queue[0]);
      if blocked {
        return;
      }
      var m := queue[0];
      queue := queue[1..];
      HandleMessage(m);
    }

    method HandleMessage(m: Message)
      requires store.locked ==> !NeedsStore(Now(), m)
      modifies this, store
      ensures Now() == Handle(old(Now()), m, old(store.failing))
    {
      hide HandleLoad, HandleDisconnected, HandleGotIp;
      match m {
        case ScanDone =>
        case StartScan =>
          if !scanning { scanning := true; }
        case LoadAndRestore => LoadSaved();
        case Connect(origin) =>
          if origin == User {
            requestConnect := true;
          } else if origin == Restore {
            requestRestore := true;
          }
        case Disconnected => ConnectionEnded();
        case StartAp =>
        case StopAp =>
        case GotIp => AddressObtained();
        case DisconnectSta => requestDisconnect := true;
      }
    }

    method LoadSaved()
      requires !store.locked
      modifies this`queue, store
      ensures store.failing == old(store.failing)
      ensures Now() == HandleLoad(old(Now()), old(store.failing))
    {
      var found := store.FetchConfig();
      if found {
        SendMessage(Connect(Restore));
      } else {
        SendMessage(StartAp);
      }
    }

    method ConnectionEnded()
      requires store.locked ==> CauseOf(Now()) != AskedFor
      modifies this, store
      ensures store.failing == old(store.failing)
      ensures Now() == HandleDisconnected(old(Now()), old(store.failing))
    {
      hide Erased, ConnectionLost;
      if shutdownTimer {
        shutdownTimer := false;
      }
      if requestConnect {
        requestConnect := false;
        shown := Some(FailedAttempt);
      } else if requestDisconnect {
        Erase();
      } else {
        LoseConnection();
      }
    }

    /** The error of a save is ignored. */
    method SaveConfig()
      requires !store.locked
      modifies store`nvs, store`locked, store`writes
      ensures Now() == WifiManager.Save(old(Now()), store.failing)
    {
      var _ := store.Save();
    }

    method Erase()
      requires !store.locked
      modifies this, store
      ensures store.failing == old(store.failing)
      ensures Now() == Erased(old(Now()), old(store.failing))
    {
      hide Save;
      ForgetNetwork();
      SaveConfig();
      SendMessage(StartAp);
    }

    /** In memory, and in what the web page shows. */
    method ForgetNetwork()
      modifies this`requestDisconnect, this`shown, store`config
      ensures Now() == old(Now()).(requestDisconnect := false, config := NO_CONFIG, shown := Some(UserDisconnect))
    {
      requestDisconnect := false;
      store.config := NO_CONFIG;
      shown := Some(UserDisconnect);
    }

    method LoseConnection()
      modifies this
      ensures Now() == ConnectionLost(old(Now()))
    {
      shown := Some(LostConnection);
      retryTimer := true;
      requestRestore := false;
      if !apStarted {
        CountLoss();
      }
    }

    /** The counter has eight bits. */
    method CountLoss()
      modifies this`retries, this`queue
      ensures retries == if old(retries) < MAX_RETRY_START_AP then (old(retries) + 1) % 256 else 0
      ensures queue == old(queue) + if old(retries) < MAX_RETRY_START_AP then [] else [StartAp]
    {
      if retries < MAX_RETRY_START_AP {
        retries := (retries + 1) % 256;
      } else {
        retries := 0;
        SendMessage(StartAp);
      }
    }

    method AddressObtained()
      requires store.locked ==> requestRestore
      modifies this, store
      ensures store.failing == old(store.failing)
      ensures Now() == HandleGotIp(old(Now()), old(store.failing))
    {
      hide WantsOf, Stop, Written, KeepsLock;
      requestConnect := false;
      if requestRestore {
        requestRestore := false;
      } else {
        SaveConfig();
      }
      retries := 0;
      shown := Some(ConnectionOk);
      if apStarted {
        shutdownTimer := true;
      }
    }

    // The callback the driver runs: bits first, then the message.

    method ScanEnded()
      modifies this
      ensures Now() == Step(old(Now()), DriverScanDone)
    {
      scanning := false;
      SendMessage(ScanDone);
    }

    method StationDisconnected()
      modifies this
      ensures Now() == Step(old(Now()), DriverDisconnected)
    {
      connected, scanning := false, false;
      SendMessage(Disconnected);
    }

    method StationGotIp()
      modifies this
      ensures Now() == Step(old(Now()), DriverGotIp)
    {
      connected := true;
      SendMessage(GotIp);
    }

    method AccessPointSwitched(on: bool)
      modifies this
      ensures Now() == Step(old(Now()), if on then DriverApStarted else DriverApStopped)
    {
      apStarted := on;
    }
  }
}
