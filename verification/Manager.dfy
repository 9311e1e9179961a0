/**
  The broadcast manager's session and schedule state (`WhatsAppManager`): the connection status,
  the cached login QR, the waiters of `requestLogin`, the configuration, the activity log and the
  recurring broadcast timer. Transport events, the clock and the credentials on disk are inputs
  of the methods. An `await` of the source is a boundary between two method calls, except in
  `logout`, `clearAuth` and the remote-logout branch of `handleConnectionUpdate`, which are each
  one step.
 */
module WhatsAppManager {
  import opened Wrappers
  import opened Config
  import opened ActivityLog
  import Recipients

  /** What a waiting `requestLogin` is woken with. */
  datatype LoginUpdate = QrUpdate(qr: string) | ConnectedUpdate | LoggedOutUpdate

  datatype Connection = Open | Close | Connecting

  /**
    A `connection.update` event of the transport; `statusCode` is
    `lastDisconnect.error.output.statusCode`.
   */
  datatype ConnectionUpdate = ConnectionUpdate(
    connection: Option<Connection>,
    qr: Option<string>,
    statusCode: Option<int>)

  /** `DisconnectReason.loggedOut` of the transport library. */
  const LoggedOutStatusCode: int := 401

  /**
    How `requestLogin` ends: connected, a QR image of `qrText`, or a rejection. The QR image
    renderer refuses the empty text, and `requestLogin` rethrows that error.
   */
  datatype LoginResult = LoginConnected | LoginQr(qrText: string) | LoginFailed

  /** Rendering `text` as a QR image: it fails exactly on the empty text. */
  function Rendered(text: string): (r: LoginResult)
    ensures r == LoginFailed <==> text == ""
    ensures r != LoginFailed ==> r == LoginQr(text)
  {
    if text == "" then LoginFailed else LoginQr(text)
  }

  /** `requestLogin` either answers at once or waits on the waiter it registered. */
  datatype LoginStep = Answered(result: LoginResult) | Waiting(waiter: nat)

  /** A recurring timer: its identity and the period it was started with. */
  datatype TimerHandle = TimerHandle(id: nat, intervalMs: int)

  /** The value of `getStatus()`. */
  datatype Status = Status(
    connected: bool,
    hasAuth: bool,
    timerActive: bool,
    nextRun: Option<int>,
    config: BroadcastConfig)

  const MsPerMinute: int := 60 * 1000

  /** A string JavaScript treats as true: present and not empty. */
  predicate Truthy(s: Option<string>) {
    s.Some? && s.value != ""
  }

  /** A promise resolves once: resolving an already settled waiter changes nothing. */
  function Resolve(settled: map<nat, LoginUpdate>, w: nat, u: LoginUpdate): map<nat, LoginUpdate> {
    if w in settled then settled else settled[w := u]
  }

  /** Calls the resolvers `ws` one after the other with the same update. */
  function ResolveAll(settled: map<nat, LoginUpdate>, ws: seq<nat>, u: LoginUpdate): (r: map<nat, LoginUpdate>)
    ensures forall w :: w in settled ==> w in r && r[w] == settled[w]
  {
    if ws == [] then settled
    else Resolve(ResolveAll(settled, ws[..|ws| - 1], u), ws[|ws| - 1], u)
  }

  /**
    After the resolvers run, every one of them is settled; a waiter that was pending now holds
    `u`, one that had already settled (its timeout fired) keeps its earlier value, and no other
    waiter is touched.
   */
  lemma {:induction false} ResolveAllSpec(settled: map<nat, LoginUpdate>, ws: seq<nat>, u: LoginUpdate)
    ensures ResolveAll(settled, ws, u).Keys == settled.Keys + set w | w in ws
    ensures forall w :: w in settled ==> ResolveAll(settled, ws, u)[w] == settled[w]
    ensures forall w :: w in ws && w !in settled ==> ResolveAll(settled, ws, u)[w] == u
  {
    if ws != [] {
      var init := ws[..|ws| - 1];
      ResolveAllSpec(settled, init, u);
      assert ws == init + [ws[|ws| - 1]];
      assert (set w | w in ws) == (set w | w in init) + {ws[|ws| - 1]};
    }
  }

  /** The update the first `emitLoginUpdate` of an event delivers, if the event emits one. */
  function FirstEmitted(update: ConnectionUpdate): (r: Option<LoginUpdate>)
    ensures Truthy(update.qr) ==> r == Some(QrUpdate(update.qr.value))
    ensures r == Some(ConnectedUpdate) ==> update.connection == Some(Open)
    ensures r == Some(LoggedOutUpdate) ==> update.connection == Some(Close) && update.statusCode == Some(LoggedOutStatusCode)
    ensures r.None? ==> !Truthy(update.qr) && update.connection != Some(Open)
  {
    if Truthy(update.qr) then Some(QrUpdate(update.qr.value))
    else if update.connection == Some(Open) then Some(ConnectedUpdate)
    else if update.connection == Some(Close) && update.statusCode == Some(LoggedOutStatusCode) then Some(LoggedOutUpdate)
    else None
  }

  /** What `waitForLoginUpdate` resolves with when its 20-second timeout fires. */
  function TimeoutUpdate(loginQr: Option<string>): (u: LoginUpdate)
    ensures Truthy(loginQr) ==> u == QrUpdate(loginQr.value)
    ensures !Truthy(loginQr) ==> u == LoggedOutUpdate
  {
    if Truthy(loginQr) then QrUpdate(loginQr.value) else LoggedOutUpdate
  }

  /**
    What `requestLogin` ends with once its waiter was woken with `update`. A `logged-out` update
    renders the cached QR, or the empty text when none is cached, and then fails.
   */
  function AfterWake(update: LoginUpdate, loginQr: Option<string>): (r: LoginResult)
    ensures update == ConnectedUpdate <==> r == LoginConnected
    ensures update.QrUpdate? && update.qr != "" ==> r == LoginQr(update.qr)
    ensures update == LoggedOutUpdate && Truthy(loginQr) ==> r == LoginQr(loginQr.value)
    ensures update == LoggedOutUpdate && !Truthy(loginQr) ==> r == LoginFailed
    ensures r.LoginQr? ==> r.qrText != ""
  {
    match update
    case QrUpdate(q) => Rendered(q)
    case ConnectedUpdate => LoginConnected
    case LoggedOutUpdate => Rendered(if loginQr.Some? then loginQr.value else "")
  }

  class Manager {
    /** `socket != null` */
    var socket: bool
    var connected: bool
    var hasAuth: bool
    /** `authState !== undefined` */
    var authLoaded: bool
    var loginQr: Option<string>
    /** The pending resolvers of `waitForLoginUpdate`, by waiter id, in registration order. */
    var loginResolvers: seq<nat>
    /** What each waiter's promise has resolved to. */
    var settled: map<nat, LoginUpdate>
    var nextWaiter: nat
    var config: BroadcastConfig
    var logs: seq<LogEntry>
    var timer: Option<TimerHandle>
    /** The intervals the runtime is still running, by timer id. */
    var liveTimers: set<nat>
    var nextTimerId: nat
    var nextRun: Option<int>

    /** The cached QR is never the empty text, and a connected session has credentials. */
    ghost predicate SessionValid()
      reads this`loginQr, this`connected, this`hasAuth
    {
      && (loginQr.Some? ==> loginQr.value != "")
      && (connected ==> hasAuth)
    }

    /** Waiters are listed once each, and every waiter mentioned has been handed out. */
    ghost predicate WaitersValid()
      reads this`loginResolvers, this`settled, this`nextWaiter
    {
      && Recipients.NoDuplicates(loginResolvers)
      && (forall i :: 0 <= i < |loginResolvers| ==> loginResolvers[i] < nextWaiter)
      && (forall w :: w in settled ==> w < nextWaiter)
    }

    /** The runtime runs exactly the interval the manager holds, if any. */
    ghost predicate TimersValid()
      reads this`timer, this`liveTimers, this`nextTimerId
    {
      && liveTimers == (if timer.Some? then {timer.value.id} else {})
      && (timer.Some? ==> timer.value.id < nextTimerId)
    }

    ghost predicate Valid()
      reads this
    {
      && SessionValid()
      && WaitersValid()
      && config.Derived()
      && TimersValid()
    }

    /** `nextRun` is only set while a timer is held. */
    predicate ScheduleConsistent()
      reads this`nextRun, this`timer
    {
      nextRun.Some? ==> timer.Some?
    }

    constructor ()
      ensures Valid() && ScheduleConsistent()
      ensures !socket && !connected && !hasAuth && !authLoaded && loginQr == None
      ensures loginResolvers == [] && settled == map[]
      ensures config == WithRecipients(DefaultStoredConfig) && config.recipients == [] && logs == []
      ensures timer == None && liveTimers == {} && nextRun == None
    {
      socket, connected, hasAuth, authLoaded := false, false, false, false;
      loginQr := None;
      loginResolvers, settled, nextWaiter := [], map[], 0;
      config := WithRecipients(DefaultStoredConfig);
      logs := [];
      timer, liveTimers, nextTimerId, nextRun := None, {}, 0, None;
      Recipients.SanitizedEmptyExactly("");
    }

    /** `applyConfig`: takes the stored configuration as it is and derives the recipients. */
    method ApplyConfig(stored: StoredConfig)
      requires Valid()
      modifies this`config
      ensures Valid()
      ensures config == WithRecipients(stored)
    {
      var recipients := Recipients.SanitizeRecipients(stored.recipientsRaw);
      config := BroadcastConfig(
        stored.recipientsRaw, stored.message, stored.minDelaySec, stored.maxDelaySec,
        stored.intervalMinutes, recipients);
    }

    /** `updateConfig`: clamps the numbers, stores the texts unchanged and recomputes the recipients. */
    method UpdateConfig(partial: StoredConfig)
      requires Valid()
      modifies this`config
      ensures Valid()
      ensures config == WithRecipients(SafeConfig(partial))
      ensures 0 <= config.minDelaySec <= config.maxDelaySec && 0 <= config.intervalMinutes
      ensures config.maxDelaySec >= partial.maxDelaySec
      ensures config.recipients == Recipients.Sanitized(partial.recipientsRaw)
      ensures config.recipientsRaw == partial.recipientsRaw && config.message == partial.message
    {
      var sanitized := Recipients.SanitizeRecipients(partial.recipientsRaw);
      var safe := StoredConfig(
        partial.recipientsRaw,
        partial.message,
        Max(0, partial.minDelaySec),
        Max(0, partial.maxDelaySec),
        Max(0, partial.intervalMinutes));
      if safe.maxDelaySec < safe.minDelaySec {
        safe := safe.(maxDelaySec := safe.minDelaySec);
      }
      config := BroadcastConfig(
        safe.recipientsRaw, safe.message, safe.minDelaySec, safe.maxDelaySec,
        safe.intervalMinutes, sanitized);
    }

    /** `loadLogs`: replaces the log with the stored entries and prunes it. */
    method LoadLogs(entries: seq<LogEntry>, now: int)
      requires Valid()
      modifies this`logs
      ensures Valid()
      ensures logs == Pruned(entries, now)
    {
      logs := entries;
      PruneLogs(now);
    }

    /** `pruneLogs` */
    method PruneLogs(now: int)
      requires Valid()
      modifies this`logs
      ensures Valid()
      ensures logs == Pruned(old(logs), now)
      ensures forall e :: e in logs <==> e in old(logs) && Retained(e, now)
    {
      logs := Pruned(logs, now);
      forall e ensures e in logs <==> e in old(logs) && Retained(e, now) {
        PrunedKeepsExactlyRetained(old(logs), now, e);
      }
    }

    /** `addLog`: stamps the entry, puts it in front and prunes. */
    method AddLog(summary: LogSummary, id: string, now: int)
      requires Valid()
      modifies this`logs
      ensures Valid()
      ensures logs == Pruned([Stamp(summary, id, now)] + old(logs), now)
      ensures logs == [Stamp(summary, id, now)] + Pruned(old(logs), now)
    {
      var entry := Stamp(summary, id, now);
      logs := [entry] + logs;
      PruneLogs(now);
      FreshEntryLeads(entry, old(logs), now);
    }

    /**
      `emitLoginUpdate`: takes the pending resolvers, empties the list and calls each of them
      once, in registration order, with the same update.
     */
    method EmitLoginUpdate(u: LoginUpdate) returns (woken: seq<nat>)
      requires Valid()
      modifies this`loginResolvers, this`settled
      ensures Valid()
      ensures woken == old(loginResolvers) && loginResolvers == []
      ensures settled == ResolveAll(old(settled), old(loginResolvers), u)
    {
      var listeners := loginResolvers;
      loginResolvers := [];
      woken := [];
      for i := 0 to |listeners|
        invariant loginResolvers == [] && woken == listeners[..i]
        invariant settled == ResolveAll(old(settled), listeners[..i], u)
        invariant forall w :: w in settled ==> w < nextWaiter
      {
        assert listeners[..i + 1][..i] == listeners[..i];
        settled := Resolve(settled, listeners[i], u);
        woken := woken + [listeners[i]];
      }
      assert listeners[..|listeners|] == listeners;
    }

    /** The registration half of `waitForLoginUpdate`: a fresh waiter joins the end of the list. */
    method RegisterWaiter() returns (w: nat)
      requires Valid()
      modifies this`loginResolvers, this`nextWaiter
      ensures Valid()
      ensures w == old(nextWaiter) && w !in settled && w !in old(loginResolvers)
      ensures loginResolvers == old(loginResolvers) + [w]
    {
      w := nextWaiter;
      nextWaiter := nextWaiter + 1;
      ghost var before := loginResolvers;
      loginResolvers := loginResolvers + [w];
      forall i, j | 0 <= i < j < |loginResolvers| ensures loginResolvers[i] != loginResolvers[j] {
        if j == |before| {
          assert loginResolvers[i] == before[i] < w;
        } else {
          assert loginResolvers[i] == before[i] && loginResolvers[j] == before[j];
        }
      }
    }

    /**
      The timeout of `waitForLoginUpdate`: a waiter still pending resolves with the cached QR if
      there is one, else with `logged-out`, and its `requestLogin` then fails. Its resolver stays
      in the list, and a later event calls it without effect.
     */
    method LoginTimeout(w: nat)
      requires Valid() && w < nextWaiter
      modifies this`settled
      ensures Valid()
      ensures settled == Resolve(old(settled), w, TimeoutUpdate(loginQr))
      ensures w in settled
      ensures w !in old(settled) && Truthy(loginQr) ==> AfterWake(settled[w], loginQr) == LoginQr(loginQr.value)
      ensures w !in old(settled) && !Truthy(loginQr) ==> AfterWake(settled[w], loginQr) == LoginFailed
    {
      if w !in settled {
        settled := settled[w := TimeoutUpdate(loginQr)];
      }
    }

    /**
      `initSocket` when no connection attempt is in flight: without a socket it reads the
      credentials (once per credential set, `credsExist` says whether they are on disk), opens a
      socket and marks the session not connected; with a socket it does nothing.
     */
    method InitSocket(credsExist: bool)
      requires Valid()
      modifies this`socket, this`authLoaded, this`hasAuth, this`connected
      ensures Valid()
      ensures old(socket) ==> socket && authLoaded == old(authLoaded) && hasAuth == old(hasAuth) && connected == old(connected)
      ensures !old(socket) ==> socket && authLoaded && !connected
      ensures !old(socket) ==> hasAuth == if old(authLoaded) then old(hasAuth) else credsExist
    {
      if !socket {
        if !authLoaded {
          authLoaded := true;
          hasAuth := credsExist;
        }
        socket := true;
        connected := false;
      }
    }

    /** `clearAuth`: forgets the credentials and the cached QR. */
    method ClearAuth()
      modifies this`authLoaded, this`hasAuth, this`loginQr
      ensures !authLoaded && !hasAuth && loginQr == None
    {
      authLoaded := false;
      hasAuth := false;
      loginQr := None;
    }

    /**
      `handleConnectionUpdate`. A QR is cached and wakes the waiters; `open` connects and drops the
      QR; `close` disconnects and drops the socket, and then either forgets the credentials and
      wakes the waiters with `logged-out` (the remote logged the device out) or asks for a
      reconnect. Waiters are woken by the first update the event emits and by no other.
     */
    method HandleConnectionUpdate(update: ConnectionUpdate) returns (reconnect: bool)
      requires Valid()
      modifies this`connected, this`hasAuth, this`loginQr, this`socket, this`authLoaded
      modifies this`loginResolvers, this`settled
      ensures Valid()
      ensures reconnect <==> update.connection == Some(Close) && update.statusCode != Some(LoggedOutStatusCode)
      ensures update.connection == Some(Open) ==>
                connected && hasAuth && loginQr == None && socket == old(socket) && authLoaded == old(authLoaded)
      ensures update.connection == Some(Close) ==> !connected && !socket
      ensures update.connection == Some(Close) && update.statusCode == Some(LoggedOutStatusCode) ==>
                !hasAuth && loginQr == None && !authLoaded
      ensures update.connection == Some(Close) && update.statusCode != Some(LoggedOutStatusCode) ==>
                hasAuth == old(hasAuth) && authLoaded == old(authLoaded)
                && loginQr == (if Truthy(update.qr) then update.qr else old(loginQr))
      ensures update.connection !in {Some(Open), Some(Close)} ==>
                connected == old(connected) && hasAuth == old(hasAuth) && socket == old(socket)
                && authLoaded == old(authLoaded)
                && loginQr == (if Truthy(update.qr) then update.qr else old(loginQr))
      ensures FirstEmitted(update).Some? ==>
                loginResolvers == [] && settled == ResolveAll(old(settled), old(loginResolvers), FirstEmitted(update).value)
      ensures FirstEmitted(update).None? ==> loginResolvers == old(loginResolvers) && settled == old(settled)
      ensures FirstEmitted(update) == Some(LoggedOutUpdate) ==>
                forall w :: w in old(loginResolvers) && w !in old(settled) ==>
                  w in settled && AfterWake(settled[w], loginQr) == LoginFailed
    {
      reconnect := false;
      if Truthy(update.qr) {
        CacheQr(update.qr.value);
      }
      if update.connection == Some(Open) {
        MarkOpen();
      } else if update.connection == Some(Close) {
        reconnect := MarkClosed(update.statusCode);
        if FirstEmitted(update) == Some(LoggedOutUpdate) {
          ResolveAllSpec(old(settled), old(loginResolvers), LoggedOutUpdate);
        }
      }
    }

    /** A QR from the transport is cached and wakes the waiters. */
    method CacheQr(qr: string)
      requires Valid() && qr != ""
      modifies this`loginQr, this`loginResolvers, this`settled
      ensures Valid()
      ensures loginQr == Some(qr) && loginResolvers == []
      ensures settled == ResolveAll(old(settled), old(loginResolvers), QrUpdate(qr))
    {
      loginQr := Some(qr);
      var _ := EmitLoginUpdate(QrUpdate(qr));
    }

    /** The connection opened: connected with credentials, no QR, waiters woken. */
    method MarkOpen()
      requires Valid()
      modifies this`connected, this`hasAuth, this`loginQr, this`loginResolvers, this`settled
      ensures Valid()
      ensures connected && hasAuth && loginQr == None && loginResolvers == []
      ensures settled == ResolveAll(old(settled), old(loginResolvers), ConnectedUpdate)
    {
      connected, hasAuth := true, true;
      loginQr := None;
      var _ := EmitLoginUpdate(ConnectedUpdate);
    }

    /** The connection closed: a logged-out device forgets its credentials, any other close reconnects. */
    method MarkClosed(statusCode: Option<int>) returns (reconnect: bool)
      requires Valid()
      modifies this`connected, this`socket, this`authLoaded, this`hasAuth, this`loginQr
      modifies this`loginResolvers, this`settled
      ensures Valid()
      ensures !connected && !socket
      ensures reconnect <==> statusCode != Some(LoggedOutStatusCode)
      ensures !reconnect ==>
                !hasAuth && !authLoaded && loginQr == None && loginResolvers == []
                && settled == ResolveAll(old(settled), old(loginResolvers), LoggedOutUpdate)
      ensures reconnect ==>
                hasAuth == old(hasAuth) && authLoaded == old(authLoaded) && loginQr == old(loginQr)
                && loginResolvers == old(loginResolvers) && settled == old(settled)
    {
      connected := false;
      socket := false;
      if statusCode == Some(LoggedOutStatusCode) {
        ClearAuth();
        var _ := EmitLoginUpdate(LoggedOutUpdate);
        reconnect := false;
      } else {
        reconnect := true;
      }
    }

    /**
      The decision of `requestLogin` once `initSocket` has returned: connected answers at once, a
      cached QR answers without registering a waiter, and otherwise a waiter is registered in the
      same step as the checks.
     */
    method RequestLogin() returns (step: LoginStep)
      requires Valid()
      modifies this`loginResolvers, this`nextWaiter
      ensures Valid()
      ensures connected ==> step == Answered(LoginConnected) && loginResolvers == old(loginResolvers)
      ensures !connected && Truthy(loginQr) ==>
                step == Answered(LoginQr(loginQr.value)) && loginResolvers == old(loginResolvers)
      ensures !connected && !Truthy(loginQr) ==>
                step == Waiting(old(nextWaiter)) && old(nextWaiter) !in settled
                && loginResolvers == old(loginResolvers) + [old(nextWaiter)]
    {
      if connected {
        return Answered(LoginConnected);
      }
      if Truthy(loginQr) {
        return Answered(LoginQr(loginQr.value));
      }
      var w := RegisterWaiter();
      step := Waiting(w);
    }

    /**
      The rest of `requestLogin`, once the promise of waiter `w` has resolved: a `logged-out`
      wake-up with no QR cached ends in failure.
     */
    method ResumeLogin(w: nat) returns (r: LoginResult)
      requires w in settled
      ensures r == AfterWake(settled[w], loginQr)
      ensures settled[w] == LoggedOutUpdate ==> (r == LoginFailed <==> !Truthy(loginQr))
      ensures r.LoginQr? ==> r.qrText != ""
    {
      r := AfterWake(settled[w], loginQr);
    }

    /** `logout`: stops the schedule, drops the socket and the credentials, and disconnects. */
    method Logout()
      requires Valid()
      modifies this`timer, this`liveTimers, this`nextRun, this`socket
      modifies this`authLoaded, this`hasAuth, this`loginQr, this`connected
      ensures Valid() && ScheduleConsistent()
      ensures timer == None && liveTimers == {} && nextRun == None
      ensures !socket && !connected && !hasAuth && !authLoaded && loginQr == None
    {
      StopSchedule();
      socket := false;
      ClearAuth();
      connected := false;
    }

    /** `getStatus`: `timerActive` holds exactly when an interval is running. */
    function GetStatus(): (s: Status)
      requires Valid()
      reads this
      ensures s.timerActive <==> liveTimers != {}
      ensures s.timerActive ==> |liveTimers| == 1
      ensures s.connected == connected && s.hasAuth == hasAuth
      ensures s.nextRun == nextRun && s.config == config
    {
      Status(connected, hasAuth, timer.Some?, nextRun, config)
    }

    /**
      `startSchedule`: clears the running interval first, so at most one ever runs; with a
      positive interval it starts a new one and sets the next run one interval from `now`.
     */
    method StartSchedule(now: int)
      requires Valid()
      modifies this`timer, this`liveTimers, this`nextTimerId, this`nextRun
      ensures Valid() && ScheduleConsistent()
      ensures |liveTimers| <= 1
      ensures old(timer).Some? ==> old(timer).value.id !in liveTimers
      ensures config.intervalMinutes <= 0 ==> timer == None && liveTimers == {} && nextRun == None
      ensures config.intervalMinutes > 0 ==>
                && timer == Some(TimerHandle(old(nextTimerId), config.intervalMinutes * MsPerMinute))
                && liveTimers == {old(nextTimerId)}
                && nextRun == Some(now + config.intervalMinutes * MsPerMinute)
    {
      if timer.Some? {
        liveTimers := liveTimers - {timer.value.id};
        timer := None;
      }
      if config.intervalMinutes <= 0 {
        nextRun := None;
        return;
      }
      var intervalMs := config.intervalMinutes * MsPerMinute;
      var handle := TimerHandle(nextTimerId, intervalMs);
      nextTimerId := nextTimerId + 1;
      liveTimers := liveTimers + {handle.id};
      timer := Some(handle);
      nextRun := Some(now + intervalMs);
    }

    /** `stopSchedule`: no interval runs and no next run is announced afterwards, whatever held before. */
    method StopSchedule()
      requires Valid()
      modifies this`timer, this`liveTimers, this`nextRun
      ensures Valid() && ScheduleConsistent()
      ensures timer == None && liveTimers == {} && nextRun == None
    {
      if timer.Some? {
        liveTimers := liveTimers - {timer.value.id};
        timer := None;
      }
      nextRun := None;
    }

    /**
      The continuation the interval of `h` attaches to its scheduled broadcast, as written: a
      success sets the next run one period after `now`, a failure changes nothing. It does not
      look at whether `h` is still the running timer.
     */
    method ScheduledRunSettled(h: TimerHandle, succeeded: bool, now: int)
      requires Valid() && h.id < nextTimerId
      modifies this`nextRun
      ensures Valid()
      ensures succeeded ==> nextRun == Some(now + h.intervalMs)
      ensures !succeeded ==> nextRun == old(nextRun)
    {
      if succeeded {
        nextRun := Some(now + h.intervalMs);
      }
    }

    /** The same continuation, acting only while `h` is still the running timer. */
    method ScheduledRunSettledForCurrentTimer(h: TimerHandle, succeeded: bool, now: int)
      requires Valid() && h.id < nextTimerId
      modifies this`nextRun
      ensures Valid()
      ensures old(ScheduleConsistent()) ==> ScheduleConsistent()
      ensures succeeded && timer == Some(h) ==> nextRun == Some(now + h.intervalMs)
      ensures !(succeeded && timer == Some(h)) ==> nextRun == old(nextRun)
    {
      if succeeded && timer == Some(h) {
        nextRun := Some(now + h.intervalMs);
      }
    }
  }

  /**
    A scheduled broadcast that finishes after `stopSchedule` leaves a next run announced while no
    timer runs: the status then shows a next run that will never happen. A one-minute schedule is
    started at 0 ms, its interval fires at 60000 ms, `stopSchedule` runs at 61000 ms while that
    broadcast is still sending, and the broadcast succeeds at 90000 ms.
   */
  method StaleNextRunAfterStop() returns (timerActive: bool, nextRun: Option<int>)
    ensures !timerActive && nextRun == Some(150000)
  {
    var m := new Manager();
    m.UpdateConfig(StoredConfig("", "", 1, 3, 1));
    assert m.config.intervalMinutes == 1;
    m.StartSchedule(0);
    var h := m.timer.value;
    assert h.intervalMs == 60000;
    m.StopSchedule();
    m.ScheduledRunSettled(h, true, 90000);
    var s := m.GetStatus();
    timerActive, nextRun := s.timerActive, s.nextRun;
  }

  /** With the corrected continuation the same run leaves no next run behind. */
  method NoStaleNextRunAfterStop() returns (timerActive: bool, nextRun: Option<int>)
    ensures !timerActive && nextRun == None
  {
    var m := new Manager();
    m.UpdateConfig(StoredConfig("", "", 1, 3, 1));
    m.StartSchedule(0);
    var h := m.timer.value;
    m.StopSchedule();
    m.ScheduledRunSettledForCurrentTimer(h, true, 90000);
    var s := m.GetStatus();
    timerActive, nextRun := s.timerActive, s.nextRun;
  }
}
