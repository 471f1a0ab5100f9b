/**
  `AuthService` (`src/helpers/AuthService.ts`): the session side of signing
  in. It keeps the signed-in user, re-arms a token-refresh timer five minutes
  before the token expires, checks once a minute how long the user has been
  idle (warning past 80% of the 30-minute timeout, logging out past all of it),
  records activity at most once every five seconds per listener set, and
  keeps tokens in session storage in base64.

  `Date.now()` is the `now` parameter of each entry point; the window, its
  storage and its timers are a `Browser.Window`. The two callbacks are
  recorded in `invoked` when they are called.
*/
module AuthServices {
  import opened Wrappers
  import opened Strings
  import opened Base64
  import opened Browser

  const SessionTimeoutKey := "cms_session_timeout"
  const LastActivityKey := "cms_last_activity"
  /** Five minutes, in milliseconds. */
  const TokenRefreshBuffer := 5 * 60 * 1000
  /** Thirty minutes, in milliseconds. */
  const DefaultSessionTimeout := 30 * 60 * 1000
  /** How often the idle check runs, in milliseconds. */
  const SessionCheckPeriod := 60 * 1000
  /** The least time between two recorded activities of one listener set, in milliseconds. */
  const ActivityThrottle := 5000
  const TokenRefreshedEvent := "tokenRefreshed"
  const ActivityEvents := ["mousedown", "keypress", "scroll", "mousemove", "touchstart"]

  /** The signed-in user: only the token's expiry (seconds since the epoch) matters here. */
  datatype User = User(expiresAt: Option<int>)

  /** The two callbacks `initialize` registers. */
  datatype SessionCallback = TimeoutWarning | Logout


  // ---------------------------------------------------------------------------
  // Token refresh

  /** What one pass of `setupTokenRefresh` decides. */
  datatype RefreshPlan = NoUser | NoExpiry | RefreshNow | Schedule(delay: int)

  /** Milliseconds from `now` until five minutes before the token expires. */
  function RefreshDelay(expiresAt: int, now: int): int {
    expiresAt * 1000 - now - TokenRefreshBuffer
  }

  /** No user, or a user without a (non-zero) expiry: nothing is scheduled. A refresh point
      already passed: refresh at once. Otherwise: a timer for exactly the time left until
      five minutes before expiry. */
  function PlanRefresh(user: Option<User>, now: int): (p: RefreshPlan)
    ensures p == NoUser <==> user.None?
    ensures p == NoExpiry <==> user.Some? && !TruthyNumber(user.value.expiresAt)
    ensures p == RefreshNow <==>
              user.Some? && TruthyNumber(user.value.expiresAt) && RefreshDelay(user.value.expiresAt.value, now) < 0
    ensures p.Schedule? ==>
              && user.Some? && TruthyNumber(user.value.expiresAt)
              && p.delay == RefreshDelay(user.value.expiresAt.value, now)
              && p.delay >= 0
  {
    if user.None? then NoUser
    else if !TruthyNumber(user.value.expiresAt) then NoExpiry
    else
      var delay := RefreshDelay(user.value.expiresAt.value, now);
      if delay < 0 then RefreshNow else Schedule(delay)
  }

  /** A refresh timer goes off no earlier than it was set for; from then on the same
      user's token is within the five-minute buffer, so the next pass refreshes at once
      (or, exactly on time, schedules a timer of zero delay). */
  lemma RefreshTimerLeadsToRefreshNow(user: Option<User>, now: int, later: int)
    requires PlanRefresh(user, now).Schedule?
    requires later >= now + PlanRefresh(user, now).delay
    ensures later == now + PlanRefresh(user, now).delay ==> PlanRefresh(user, later) == Schedule(0)
    ensures later > now + PlanRefresh(user, now).delay ==> PlanRefresh(user, later) == RefreshNow
  {
  }

  /** How the synchronous call chain of `setupTokenRefresh` ends, as written: `Exhausted`
      when it runs out of call-stack frames. */
  datatype Chain = Exhausted | Settled(scheduled: Option<int>, refreshEvents: nat)

  /** `setupTokenRefresh` as written, with `frames` call-stack frames left: a refresh point
      already passed calls `refreshToken`, which calls `setupTokenRefresh` again, with the
      same user and (within one synchronous run) the same time. */
  function SetupAsWritten(user: Option<User>, now: int, frames: nat): Chain
    decreases frames, 0
  {
    match PlanRefresh(user, now)
    case NoUser => Settled(None, 0)
    case NoExpiry => Settled(None, 0)
    case Schedule(d) => Settled(Some(d), 0)
    case RefreshNow => if frames == 0 then Exhausted else RefreshAsWritten(user, now, frames - 1)
  }

  /** `refreshToken` as written: set up the next refresh, then dispatch one event. */
  function RefreshAsWritten(user: Option<User>, now: int, frames: nat): Chain
    decreases frames, 1
  {
    if user.None? then Settled(None, 0)
    else
      match SetupAsWritten(user, now, frames)
      case Exhausted => Exhausted
      case Settled(s, n) => Settled(s, n + 1)
  }

  /** As written, a token already inside the refresh buffer sends `setupTokenRefresh` and
      `refreshToken` into each other until the call stack runs out, however deep it is. */
  lemma {:induction false} ExpiredTokenExhaustsStack(user: Option<User>, now: int, frames: nat)
    requires PlanRefresh(user, now) == RefreshNow
    ensures SetupAsWritten(user, now, frames) == Exhausted
    decreases frames
  {
    if frames > 0 {
      ExpiredTokenExhaustsStack(user, now, frames - 1);
      assert RefreshAsWritten(user, now, frames - 1) == Exhausted;
    }
  }

  /** As written, with enough frames a token outside the buffer settles with one timer and no event. */
  lemma SetupAsWrittenSchedules(user: Option<User>, now: int, frames: nat)
    requires PlanRefresh(user, now).Schedule?
    ensures SetupAsWritten(user, now, frames) == Settled(Some(PlanRefresh(user, now).delay), 0)
  {
  }

  // ---------------------------------------------------------------------------
  // Idle timeout

  /** The callbacks one idle check calls, in order: the warning once idle for more than
      80% of the timeout (`5 * idle > 4 * timeout`, exact for the 30-minute timeout) and
      the logout once idle for more than the timeout, each only when registered. */
  function TimeoutCallbacks(idle: int, timeout: int, hasWarning: bool, hasLogout: bool): (r: seq<SessionCallback>)
    ensures TimeoutWarning in r <==> 5 * idle > 4 * timeout && hasWarning
    ensures Logout in r <==> idle > timeout && hasLogout
    ensures |r| <= 2 && (|r| == 2 ==> r == [TimeoutWarning, Logout])
  {
    (if 5 * idle > 4 * timeout && hasWarning then [TimeoutWarning] else [])
    + (if idle > timeout && hasLogout then [Logout] else [])
  }

  /** With both callbacks registered, a check that logs out also warns, first. */
  lemma LogoutComesWithWarning(idle: int, timeout: int)
    requires timeout >= 0
    requires Logout in TimeoutCallbacks(idle, timeout, true, true)
    ensures TimeoutCallbacks(idle, timeout, true, true) == [TimeoutWarning, Logout]
  {
  }

  /** `getLastActivity` followed by the `!lastActivity` test: the stored time when the stored
      text is non-empty and parses to a non-zero number, otherwise `None`. */
  function LastActivityOf(stored: Option<string>): (r: Option<int>)
    ensures r.Some? ==> stored.Some? && ParseInt(stored.value) == Int(r.value) && r.value != 0
    ensures r.None? ==> stored.None? || stored.value == "" || ParseInt(stored.value) == NaN || ParseInt(stored.value) == Int(0)
  {
    if stored.None? || stored.value == "" then None
    else match ParseInt(stored.value)
      case NaN => None
      case Int(v) => if v == 0 then None else Some(v)
  }

  /** A time `updateActivity` stored reads back as that time. */
  lemma StoredActivityReadsBack(now: nat)
    requires now > 0
    ensures LastActivityOf(Some(IntToString(now))) == Some(now)
  {
    DecimalRoundTrip(now);
  }

  // ---------------------------------------------------------------------------
  // Activity throttle

  /** One activity event seen by one listener set whose last recorded activity was at
      `lastUpdate`: it records when more than five seconds have passed, and then
      remembers `now`. */
  function ThrottleStep(lastUpdate: int, now: int): (r: (bool, int))
    ensures r.0 <==> now - lastUpdate > ActivityThrottle
    ensures r.1 == if r.0 then now else lastUpdate
  {
    if now - lastUpdate > ActivityThrottle then (true, now) else (false, lastUpdate)
  }

  /** The times one listener set records for a run of activity events at `times`. */
  function RecordedTimes(lastUpdate: int, times: seq<int>): seq<int>
    decreases |times|
  {
    if times == [] then []
    else
      var (record, next) := ThrottleStep(lastUpdate, times[0]);
      (if record then [times[0]] else []) + RecordedTimes(next, times[1..])
  }

  /** Every recorded time is one of the event times, the first is more than five seconds
      after `lastUpdate`, and any two recorded in a row are more than five seconds apart. */
  lemma {:induction false} RecordedTimesSpaced(lastUpdate: int, times: seq<int>)
    ensures forall k :: 0 <= k < |RecordedTimes(lastUpdate, times)| ==> RecordedTimes(lastUpdate, times)[k] in times
    ensures RecordedTimes(lastUpdate, times) != [] ==> RecordedTimes(lastUpdate, times)[0] - lastUpdate > ActivityThrottle
    ensures forall k :: 0 < k < |RecordedTimes(lastUpdate, times)| ==>
              RecordedTimes(lastUpdate, times)[k] - RecordedTimes(lastUpdate, times)[k - 1] > ActivityThrottle
    decreases |times|
  {
    if times != [] {
      var (record, next) := ThrottleStep(lastUpdate, times[0]);
      var rest := RecordedTimes(next, times[1..]);
      RecordedTimesSpaced(next, times[1..]);
      assert RecordedTimes(lastUpdate, times) == (if record then [times[0]] else []) + rest;
      assert forall t :: t in times[1..] ==> t in times;
    }
  }

  /** Whether any listener set records an activity event at `now`. */
  predicate AnyRecords(throttles: seq<int>, now: int) {
    exists k :: 0 <= k < |throttles| && ThrottleStep(throttles[k], now).0
  }

  /** One more listener set: a record happens in the longer prefix exactly when it happened
      before or happens in that set. */
  lemma AnyRecordsSnoc(throttles: seq<int>, i: nat, now: int)
    requires i < |throttles|
    ensures AnyRecords(throttles[..i + 1], now) <==> AnyRecords(throttles[..i], now) || ThrottleStep(throttles[i], now).0
  {
    assert throttles[..i + 1] == throttles[..i] + [throttles[i]];
  }

  function ThrottleAll(throttles: seq<int>, now: int): (r: seq<int>)
    ensures |r| == |throttles|
    ensures forall k :: 0 <= k < |r| ==> r[k] == ThrottleStep(throttles[k], now).1
  {
    seq(|throttles|, k requires 0 <= k < |throttles| => ThrottleStep(throttles[k], now).1)
  }

  // ---------------------------------------------------------------------------
  // Token storage

  /** `retrieveSecureToken` on what storage holds under the name: nothing for a missing or
      empty entry and for one `atob` rejects, the decoded text otherwise. */
  function DecodeStoredToken(stored: Option<string>): (r: Option<string>)
    ensures stored.None? || stored == Some("") ==> r.None?
    ensures stored.Some? && stored.value != "" ==> r == Atob(stored.value)
  {
    if stored.None? || stored.value == "" then None else Atob(stored.value)
  }

  /** What `securelyStoreToken` writes for a value `btoa` accepts reads back as that value,
      except the empty value, whose empty encoding reads back as no token. */
  lemma {:induction false} StoredTokenRoundTrip(value: string)
    ensures Btoa(value).Success? <==> IsLatin1(value)
    ensures Btoa(value).Success? ==>
              DecodeStoredToken(Some(Btoa(value).value)) == if value == "" then None else Some(value)
  {
    AtobBtoa(value);
    if IsLatin1(value) {
      BtoaEmpty(value);
    }
  }

  /** `AuthService.securelyStoreToken`: stores the base64 of the value under the name; a
      character above U+00FF makes `btoa` throw and nothing is stored. */
  method SecurelyStoreToken(w: Window, tokenName: string, tokenValue: string) returns (outcome: Outcome)
    modifies w
    ensures outcome == Pass <==> IsLatin1(tokenValue)
    ensures outcome == Pass ==> w.storage == old(w.storage)[tokenName := Btoa(tokenValue).value]
    ensures outcome.Fail? ==> outcome.error == "InvalidCharacterError" && w.storage == old(w.storage)
    ensures w.timers == old(w.timers) && w.nextHandle == old(w.nextHandle)
    ensures w.dispatched == old(w.dispatched) && w.listeners == old(w.listeners)
  {
    var encoded := Btoa(tokenValue);
    if encoded.Failure? {
      return Fail(encoded.error);
    }
    w.SetItem(tokenName, encoded.value);
    outcome := Pass;
  }

  /** `AuthService.retrieveSecureToken`. */
  function RetrieveSecureToken(w: Window, tokenName: string): (r: Option<string>)
    reads w
    ensures tokenName !in w.storage ==> r.None?
    ensures tokenName in w.storage && w.storage[tokenName] != "" ==> r == Atob(w.storage[tokenName])
  {
    DecodeStoredToken(w.GetItem(tokenName))
  }

  /** `AuthService.clearSecureTokens`: all of session storage is emptied, the activity key included. */
  method ClearSecureTokens(w: Window)
    modifies w
    ensures w.storage == map[]
    ensures w.timers == old(w.timers) && w.nextHandle == old(w.nextHandle)
    ensures w.dispatched == old(w.dispatched) && w.listeners == old(w.listeners)
  {
    w.Clear();
  }

  /** Storing a token and reading it back under the same name. */
  method StoreThenRetrieve(w: Window, tokenName: string, tokenValue: string) returns (r: Option<string>)
    requires IsLatin1(tokenValue)
    modifies w
    ensures r == if tokenValue == "" then None else Some(tokenValue)
  {
    var outcome := SecurelyStoreToken(w, tokenName, tokenValue);
    StoredTokenRoundTrip(tokenValue);
    r := RetrieveSecureToken(w, tokenName);
  }

  // ---------------------------------------------------------------------------
  // The service

  class AuthService {
    const window: Window
    var user: Option<User>
    var refreshTimer: Option<int>
    var sessionTimer: Option<int>
    const sessionTimeoutDuration: int
    var hasWarningCallback: bool
    var hasLogoutCallback: bool
    /** The callbacks called so far, in order. */
    var invoked: seq<SessionCallback>
    /** `lastUpdate` of each listener set `addActivityListeners` has added, oldest first. */
    var throttles: seq<int>

    predicate Valid()
      reads this, window
    {
      window.Valid()
    }

    /** The private constructor: no user, no timers, the 30-minute timeout. */
    constructor(window: Window)
      requires window.Valid()
      ensures Valid() && this.window == window
      ensures user.None? && refreshTimer.None? && sessionTimer.None?
      ensures sessionTimeoutDuration == DefaultSessionTimeout
      ensures !hasWarningCallback && !hasLogoutCallback && invoked == [] && throttles == []
    {
      this.window := window;
      user := None;
      refreshTimer := None;
      sessionTimer := None;
      sessionTimeoutDuration := DefaultSessionTimeout;
      hasWarningCallback := false;
      hasLogoutCallback := false;
      invoked := [];
      throttles := [];
    }

    /** `setupTokenRefresh` without its call back into `refreshToken`: for a signed-in
        user, the refresh point is the token's expiry less the refresh margin; any refresh
        timer is cancelled (its handle stays in `refreshTimer`), then a one-shot timer is set
        for that point if it is still ahead, and the result says whether it has already
        passed. A token without an expiry gets no timer. */
    method StepTokenRefresh(now: int) returns (refreshNow: bool)
      requires Valid()
      modifies this, window
      ensures Valid()
      ensures refreshNow <==> PlanRefresh(user, now) == RefreshNow
      ensures user == old(user) && sessionTimer == old(sessionTimer) && invoked == old(invoked)
      ensures throttles == old(throttles)
      ensures hasWarningCallback == old(hasWarningCallback) && hasLogoutCallback == old(hasLogoutCallback)
      ensures window.storage == old(window.storage) && window.dispatched == old(window.dispatched)
      ensures window.listeners == old(window.listeners)
      ensures user.None? ==> window.timers == old(window.timers) && refreshTimer == old(refreshTimer)
      ensures user.Some? && !PlanRefresh(user, now).Schedule? ==>
                window.timers == Cancelled(old(window.timers), old(refreshTimer)) && refreshTimer == old(refreshTimer)
      ensures PlanRefresh(user, now).Schedule? ==>
                && refreshTimer.Some? && refreshTimer.value !in old(window.timers)
                && old(window.nextHandle) <= refreshTimer.value
                && refreshTimer.value !in Cancelled(old(window.timers), old(refreshTimer))
                && window.timers == Cancelled(old(window.timers), old(refreshTimer))[refreshTimer.value :=
                                      Timer(false, PlanRefresh(user, now).delay, CallRefreshToken)]
    {
      refreshNow := false;
      if user.None? {
        return;
      }
      if refreshTimer.Some? && refreshTimer.value != 0 {
        window.ClearTimer(refreshTimer.value);
      }
      var plan := PlanRefresh(user, now);
      if plan == NoExpiry {
        return;
      }
      if plan == RefreshNow {
        refreshNow := true;
        return;
      }
      var handle := window.AddTimer(Timer(false, plan.delay, CallRefreshToken));
      refreshTimer := Some(handle);
    }

    /** `setupTokenRefresh`, corrected so that an immediate refresh happens once: a token
        already inside the buffer gets one `tokenRefreshed` event and no timer. */
    method SetupTokenRefresh(now: int)
      requires Valid()
      modifies this, window
      ensures Valid()
      ensures user == old(user) && sessionTimer == old(sessionTimer) && invoked == old(invoked)
      ensures throttles == old(throttles)
      ensures hasWarningCallback == old(hasWarningCallback) && hasLogoutCallback == old(hasLogoutCallback)
      ensures window.storage == old(window.storage) && window.listeners == old(window.listeners)
      ensures window.dispatched == old(window.dispatched)
                + (if PlanRefresh(user, now) == RefreshNow then [TokenRefreshedEvent] else [])
      ensures user.None? ==> window.timers == old(window.timers) && refreshTimer == old(refreshTimer)
      ensures user.Some? && !PlanRefresh(user, now).Schedule? ==>
                window.timers == Cancelled(old(window.timers), old(refreshTimer)) && refreshTimer == old(refreshTimer)
      ensures PlanRefresh(user, now).Schedule? ==>
                && refreshTimer.Some? && refreshTimer.value !in old(window.timers)
                && refreshTimer.value !in Cancelled(old(window.timers), old(refreshTimer))
                && window.timers == Cancelled(old(window.timers), old(refreshTimer))[refreshTimer.value :=
                                      Timer(false, PlanRefresh(user, now).delay, CallRefreshToken)]
    {
      var refreshNow := StepTokenRefresh(now);
      if refreshNow {
        RefreshToken(now);
      }
    }

    /** `refreshToken`, corrected: with a user, one more pass of the refresh set-up that
        does not re-enter the immediate refresh, then one `tokenRefreshed` event. */
    method RefreshToken(now: int)
      requires Valid()
      modifies this, window
      ensures Valid()
      ensures user == old(user) && sessionTimer == old(sessionTimer) && invoked == old(invoked)
      ensures throttles == old(throttles)
      ensures hasWarningCallback == old(hasWarningCallback) && hasLogoutCallback == old(hasLogoutCallback)
      ensures window.storage == old(window.storage) && window.listeners == old(window.listeners)
      ensures window.dispatched == old(window.dispatched) + (if user.Some? then [TokenRefreshedEvent] else [])
      ensures user.None? ==> window.timers == old(window.timers) && refreshTimer == old(refreshTimer)
      ensures user.Some? && !PlanRefresh(user, now).Schedule? ==>
                window.timers == Cancelled(old(window.timers), old(refreshTimer)) && refreshTimer == old(refreshTimer)
      ensures PlanRefresh(user, now).Schedule? ==>
                && refreshTimer.Some? && refreshTimer.value !in old(window.timers)
                && old(window.nextHandle) <= refreshTimer.value
                && window.timers == Cancelled(old(window.timers), old(refreshTimer))[refreshTimer.value :=
                                      Timer(false, PlanRefresh(user, now).delay, CallRefreshToken)]
    {
      if user.None? {
        return;
      }
      var again := StepTokenRefresh(now);
      window.Dispatch(TokenRefreshedEvent);
    }

    /** `setupSessionTimeout`: a new one-minute interval for the idle check; an interval
        armed earlier is not cancelled. */
    method SetupSessionTimeout()
      requires Valid()
      modifies this, window
      ensures Valid()
      ensures sessionTimer.Some? && sessionTimer.value !in old(window.timers)
      ensures window.timers == old(window.timers)[sessionTimer.value := Timer(true, SessionCheckPeriod, CallCheckSessionTimeout)]
      ensures user == old(user) && refreshTimer == old(refreshTimer) && invoked == old(invoked)
      ensures throttles == old(throttles)
      ensures hasWarningCallback == old(hasWarningCallback) && hasLogoutCallback == old(hasLogoutCallback)
      ensures window.storage == old(window.storage) && window.dispatched == old(window.dispatched)
      ensures window.listeners == old(window.listeners)
    {
      var handle := window.AddTimer(Timer(true, SessionCheckPeriod, CallCheckSessionTimeout));
      sessionTimer := Some(handle);
    }

    /** `updateActivity`: the time, as decimal text, under the last-activity key. */
    method UpdateActivity(now: int)
      requires Valid()
      modifies window
      ensures Valid()
      ensures window.storage == old(window.storage)[LastActivityKey := IntToString(now)]
      ensures window.timers == old(window.timers) && window.dispatched == old(window.dispatched)
      ensures window.listeners == old(window.listeners)
    {
      window.SetItem(LastActivityKey, IntToString(now));
    }

    /** `getLastActivity` together with the truthiness test that follows it. */
    function LastActivity(): Option<int>
      reads window
    {
      LastActivityOf(window.GetItem(LastActivityKey))
    }

    /** `checkSessionTimeout`: with no usable last activity it only records activity now;
        otherwise it calls the callbacks the idle time calls for. */
    method CheckSessionTimeout(now: int)
      requires Valid()
      modifies this, window
      ensures Valid()
      ensures old(LastActivity()).None? ==>
                && window.storage == old(window.storage)[LastActivityKey := IntToString(now)]
                && invoked == old(invoked)
      ensures old(LastActivity()).Some? ==>
                && window.storage == old(window.storage)
                && invoked == old(invoked) + TimeoutCallbacks(now - old(LastActivity()).value,
                                  sessionTimeoutDuration, hasWarningCallback, hasLogoutCallback)
      ensures user == old(user) && refreshTimer == old(refreshTimer) && sessionTimer == old(sessionTimer)
      ensures throttles == old(throttles)
      ensures hasWarningCallback == old(hasWarningCallback) && hasLogoutCallback == old(hasLogoutCallback)
      ensures window.timers == old(window.timers) && window.dispatched == old(window.dispatched)
      ensures window.listeners == old(window.listeners)
    {
      var lastActivity := LastActivity();
      if lastActivity.None? {
        UpdateActivity(now);
        return;
      }
      var idleTime := now - lastActivity.value;
      if 5 * idleTime > 4 * sessionTimeoutDuration && hasWarningCallback {
        invoked := invoked + [TimeoutWarning];
      }
      if idleTime > sessionTimeoutDuration && hasLogoutCallback {
        invoked := invoked + [Logout];
      }
      assert invoked == old(invoked) + TimeoutCallbacks(idleTime, sessionTimeoutDuration, hasWarningCallback, hasLogoutCallback);
    }

    /** `addActivityListeners`: one new listener set, with `lastUpdate` 0, on each of the five events. */
    method AddActivityListeners()
      modifies this, window
      ensures throttles == old(throttles) + [0]
      ensures window.listeners == old(window.listeners) + ActivityEvents
      ensures user == old(user) && refreshTimer == old(refreshTimer) && sessionTimer == old(sessionTimer)
      ensures invoked == old(invoked)
      ensures hasWarningCallback == old(hasWarningCallback) && hasLogoutCallback == old(hasLogoutCallback)
      ensures window.storage == old(window.storage) && window.timers == old(window.timers)
      ensures window.nextHandle == old(window.nextHandle) && window.dispatched == old(window.dispatched)
    {
      throttles := throttles + [0];
      var i := 0;
      while i < |ActivityEvents|
        invariant 0 <= i <= |ActivityEvents|
        invariant window.listeners == old(window.listeners) + ActivityEvents[..i]
        invariant throttles == old(throttles) + [0]
        invariant user == old(user) && refreshTimer == old(refreshTimer) && sessionTimer == old(sessionTimer)
        invariant invoked == old(invoked)
        invariant hasWarningCallback == old(hasWarningCallback) && hasLogoutCallback == old(hasLogoutCallback)
        invariant window.storage == old(window.storage) && window.timers == old(window.timers)
        invariant window.nextHandle == old(window.nextHandle) && window.dispatched == old(window.dispatched)
      {
        window.AddListener(ActivityEvents[i]);
        assert ActivityEvents[..i + 1] == ActivityEvents[..i] + [ActivityEvents[i]];
        i := i + 1;
      }
    }

    /** An activity event reaching the window: when it is one of the five watched events,
        every listener set in turn applies its throttle, and the activity time is written
        when any of them records. */
    method Activity(event: string, now: int)
      requires Valid()
      modifies this, window
      ensures Valid()
      ensures event !in ActivityEvents ==> throttles == old(throttles) && window.storage == old(window.storage)
      ensures event in ActivityEvents ==> throttles == ThrottleAll(old(throttles), now)
      ensures event in ActivityEvents && AnyRecords(old(throttles), now) ==>
                window.storage == old(window.storage)[LastActivityKey := IntToString(now)]
      ensures !(event in ActivityEvents && AnyRecords(old(throttles), now)) ==> window.storage == old(window.storage)
      ensures user == old(user) && refreshTimer == old(refreshTimer) && sessionTimer == old(sessionTimer)
      ensures invoked == old(invoked)
      ensures hasWarningCallback == old(hasWarningCallback) && hasLogoutCallback == old(hasLogoutCallback)
      ensures window.timers == old(window.timers) && window.dispatched == old(window.dispatched)
      ensures window.listeners == old(window.listeners)
    {
      if event in ActivityEvents {
        RunThrottles(now);
      }
    }

    /** The watched event reaching each listener set in turn. */
    method RunThrottles(now: int)
      requires Valid()
      modifies this, window
      ensures Valid()
      ensures throttles == ThrottleAll(old(throttles), now)
      ensures window.storage == if AnyRecords(old(throttles), now)
                                then old(window.storage)[LastActivityKey := IntToString(now)]
                                else old(window.storage)
      ensures user == old(user) && refreshTimer == old(refreshTimer) && sessionTimer == old(sessionTimer)
      ensures invoked == old(invoked)
      ensures hasWarningCallback == old(hasWarningCallback) && hasLogoutCallback == old(hasLogoutCallback)
      ensures window.timers == old(window.timers) && window.dispatched == old(window.dispatched)
      ensures window.listeners == old(window.listeners)
    {
      var i := 0;
      var recorded := false;
      while i < |throttles|
        invariant 0 <= i <= |throttles| == |old(throttles)|
        invariant Valid()
        invariant |throttles| == |old(throttles)|
        invariant forall k :: 0 <= k < i ==> throttles[k] == ThrottleStep(old(throttles)[k], now).1
        invariant forall k :: i <= k < |throttles| ==> throttles[k] == old(throttles)[k]
        invariant recorded == AnyRecords(old(throttles)[..i], now)
        invariant window.storage == if recorded then old(window.storage)[LastActivityKey := IntToString(now)]
                                    else old(window.storage)
        invariant user == old(user) && refreshTimer == old(refreshTimer) && sessionTimer == old(sessionTimer)
        invariant invoked == old(invoked)
        invariant hasWarningCallback == old(hasWarningCallback) && hasLogoutCallback == old(hasLogoutCallback)
        invariant window.timers == old(window.timers) && window.dispatched == old(window.dispatched)
        invariant window.listeners == old(window.listeners)
      {
        var step := ThrottleStep(throttles[i], now);
        if step.0 {
          UpdateActivity(now);
        }
        throttles := throttles[i := step.1];
        AnyRecordsSnoc(old(throttles), i, now);
        recorded := recorded || step.0;
        i := i + 1;
      }
      assert old(throttles)[..i] == old(throttles);
      assert throttles == ThrottleAll(old(throttles), now);
    }

    /** `initialize`: the user and both callbacks are kept, the token refresh is set up,
        the idle check armed, the activity time recorded and a listener set added. */
    method Initialize(u: User, now: int)
      requires Valid()
      modifies this, window
      ensures Valid()
      ensures user == Some(u) && hasWarningCallback && hasLogoutCallback
      ensures invoked == old(invoked)
      ensures throttles == old(throttles) + [0]
      ensures window.listeners == old(window.listeners) + ActivityEvents
      ensures window.storage == old(window.storage)[LastActivityKey := IntToString(now)]
      ensures window.dispatched == old(window.dispatched)
                + (if PlanRefresh(Some(u), now) == RefreshNow then [TokenRefreshedEvent] else [])
      ensures !PlanRefresh(Some(u), now).Schedule? ==> refreshTimer == old(refreshTimer)
      ensures PlanRefresh(Some(u), now).Schedule? ==> refreshTimer.Some?
      ensures sessionTimer.Some?
      ensures var refreshed := if PlanRefresh(Some(u), now).Schedule?
                               then Cancelled(old(window.timers), old(refreshTimer))[refreshTimer.value :=
                                      Timer(false, PlanRefresh(Some(u), now).delay, CallRefreshToken)]
                               else Cancelled(old(window.timers), old(refreshTimer));
              && sessionTimer.value !in refreshed
              && window.timers == refreshed[sessionTimer.value := Timer(true, SessionCheckPeriod, CallCheckSessionTimeout)]
    {
      user := Some(u);
      hasWarningCallback := true;
      hasLogoutCallback := true;
      SetupTokenRefresh(now);
      SetupSessionTimeout();
      UpdateActivity(now);
      AddActivityListeners();
    }

    /** A timer going off at `now`: a one-shot timer is removed first, an interval stays;
        then its callback runs. An unknown handle does nothing. */
    method FireTimer(handle: int, now: int)
      requires Valid()
      modifies this, window
      ensures Valid()
      ensures handle !in old(window.timers) ==>
                && window.timers == old(window.timers) && window.storage == old(window.storage)
                && window.dispatched == old(window.dispatched) && invoked == old(invoked)
                && refreshTimer == old(refreshTimer)
      ensures handle in old(window.timers) && old(window.timers)[handle].callback == CallRefreshToken ==>
                && window.storage == old(window.storage) && invoked == old(invoked)
                && window.dispatched == old(window.dispatched) + (if user.Some? then [TokenRefreshedEvent] else [])
                && (user.None? ==> window.timers == Fired(old(window.timers), handle) && refreshTimer == old(refreshTimer))
                && (user.Some? && !PlanRefresh(user, now).Schedule? ==>
                      window.timers == Cancelled(Fired(old(window.timers), handle), old(refreshTimer))
                      && refreshTimer == old(refreshTimer))
                && (PlanRefresh(user, now).Schedule? ==>
                      && refreshTimer.Some? && refreshTimer.value !in old(window.timers)
                      && window.timers == Cancelled(Fired(old(window.timers), handle), old(refreshTimer))[refreshTimer.value :=
                                            Timer(false, PlanRefresh(user, now).delay, CallRefreshToken)])
      ensures handle in old(window.timers) && old(window.timers)[handle].callback == CallCheckSessionTimeout ==>
                && window.timers == Fired(old(window.timers), handle)
                && refreshTimer == old(refreshTimer) && window.dispatched == old(window.dispatched)
                && (old(LastActivity()).None? ==>
                      window.storage == old(window.storage)[LastActivityKey := IntToString(now)] && invoked == old(invoked))
                && (old(LastActivity()).Some? ==>
                      && window.storage == old(window.storage)
                      && invoked == old(invoked) + TimeoutCallbacks(now - old(LastActivity()).value,
                                        sessionTimeoutDuration, hasWarningCallback, hasLogoutCallback))
      ensures user == old(user) && throttles == old(throttles) && sessionTimer == old(sessionTimer)
      ensures hasWarningCallback == old(hasWarningCallback) && hasLogoutCallback == old(hasLogoutCallback)
      ensures window.listeners == old(window.listeners)
    {
      if handle !in window.timers {
        return;
      }
      var t := window.timers[handle];
      if !t.repeat {
        window.ClearTimer(handle);
      }
      match t.callback
      case CallRefreshToken => RefreshToken(now);
      case CallCheckSessionTimeout => CheckSessionTimeout(now);
    }

    /** The timer half of `cleanup`: each truthy timer handle is cancelled, then nulled. */
    method CancelTimers()
      requires Valid()
      modifies this, window
      ensures Valid()
      ensures refreshTimer.None? && sessionTimer.None? && user == old(user)
      ensures window.timers == Cancelled(Cancelled(old(window.timers), old(refreshTimer)), old(sessionTimer))
      ensures window.storage == old(window.storage)
      ensures invoked == old(invoked) && throttles == old(throttles)
      ensures hasWarningCallback == old(hasWarningCallback) && hasLogoutCallback == old(hasLogoutCallback)
      ensures window.dispatched == old(window.dispatched) && window.listeners == old(window.listeners)
    {
      if refreshTimer.Some? && refreshTimer.value != 0 {
        window.ClearTimer(refreshTimer.value);
      }
      refreshTimer := None;
      if sessionTimer.Some? && sessionTimer.value != 0 {
        window.ClearTimer(sessionTimer.value);
      }
      sessionTimer := None;
    }

    /** `cleanup`: both timers cancelled and forgotten, both session keys removed, no user.
        The activity listeners stay. */
    method Cleanup()
      requires Valid()
      modifies this, window
      ensures Valid()
      ensures user.None? && refreshTimer.None? && sessionTimer.None?
      ensures window.timers == Cancelled(Cancelled(old(window.timers), old(refreshTimer)), old(sessionTimer))
      ensures window.storage == old(window.storage) - {LastActivityKey, SessionTimeoutKey}
      ensures invoked == old(invoked) && throttles == old(throttles)
      ensures hasWarningCallback == old(hasWarningCallback) && hasLogoutCallback == old(hasLogoutCallback)
      ensures window.dispatched == old(window.dispatched) && window.listeners == old(window.listeners)
    {
      CancelTimers();
      window.RemoveItem(LastActivityKey);
      window.RemoveItem(SessionTimeoutKey);
      user := None;
    }

    /** The instance forms of the three token-storage operations. */
    method StoreToken(tokenName: string, tokenValue: string) returns (outcome: Outcome)
      requires Valid()
      modifies window
      ensures Valid()
      ensures outcome == Pass <==> IsLatin1(tokenValue)
      ensures outcome == Pass ==> window.storage == old(window.storage)[tokenName := Btoa(tokenValue).value]
      ensures outcome.Fail? ==> outcome.error == "InvalidCharacterError" && window.storage == old(window.storage)
      ensures window.timers == old(window.timers) && window.nextHandle == old(window.nextHandle)
      ensures window.dispatched == old(window.dispatched) && window.listeners == old(window.listeners)
    {
      outcome := SecurelyStoreToken(window, tokenName, tokenValue);
    }

    function RetrieveToken(tokenName: string): (r: Option<string>)
      reads window
      ensures tokenName !in window.storage ==> r.None?
      ensures tokenName in window.storage && window.storage[tokenName] != "" ==> r == Atob(window.storage[tokenName])
    {
      RetrieveSecureToken(window, tokenName)
    }

    method ClearTokens()
      requires Valid()
      modifies window
      ensures Valid()
      ensures window.storage == map[]
      ensures window.timers == old(window.timers) && window.nextHandle == old(window.nextHandle)
      ensures window.dispatched == old(window.dispatched) && window.listeners == old(window.listeners)
    {
      ClearSecureTokens(window);
    }
  }

  /** A refresh timeout goes off at most once: after it has fired, its handle is unknown,
      even when the refresh it runs arms the next timeout. */
  method FireOneShotOnce(s: AuthService, handle: int, now: int)
    requires s.Valid() && handle in s.window.timers && !s.window.timers[handle].repeat
    modifies s, s.window
    ensures s.Valid() && handle !in s.window.timers
  {
    s.FireTimer(handle, now);
  }

  /** The timer table once the timer with the handle has gone off: a one-shot timer is
      gone, an interval stays. */
  function Fired(timers: map<int, Timer>, handle: int): (r: map<int, Timer>)
    requires handle in timers
    ensures timers[handle].repeat ==> r == timers
    ensures !timers[handle].repeat ==> handle !in r && forall h :: h in r <==> h in timers && h != handle
  {
    if timers[handle].repeat then timers else timers - {handle}
  }

  /** The timer table once the timer with the handle, if the handle is truthy, is cancelled. */
  function Cancelled(timers: map<int, Timer>, handle: Option<int>): (r: map<int, Timer>)
    ensures handle.Some? && handle.value != 0 ==> handle.value !in r
    ensures forall h :: h in r <==> h in timers && !(handle.Some? && handle.value == h && h != 0)
    ensures forall h :: h in r ==> r[h] == timers[h]
  {
    if handle.Some? && handle.value != 0 then timers - {handle.value} else timers
  }

  /** The one shared instance behind `AuthService.getInstance`. */
  class Registry {
    const window: Window
    var instance: Option<AuthService>

    constructor(window: Window)
      ensures this.window == window && instance.None?
    {
      this.window := window;
      instance := None;
    }

    /** `getInstance`: the first call makes the instance, every call returns it. */
    method GetInstance() returns (a: AuthService)
      requires window.Valid()
      modifies this
      ensures instance == Some(a)
      ensures old(instance).Some? ==> a == old(instance).value
      ensures old(instance).None? ==> fresh(a) && a.window == window && a.user.None? && a.throttles == []
    {
      if instance.None? {
        var created := new AuthService(window);
        instance := Some(created);
      }
      a := instance.value;
    }
  }

  /** Two calls of `getInstance` give the same object. */
  method GetInstanceTwice(r: Registry) returns (a: AuthService, b: AuthService)
    requires r.window.Valid()
    modifies r
    ensures a == b
  {
    a := r.GetInstance();
    b := r.GetInstance();
  }
}
