/**
 * components/session-expiry-notification.tsx: two state variables,
 * `showWarning` and `timeLeft`, driven by a poll of `/api/auth/me` (every
 * minute) and by a one-second countdown that runs while `timeLeft > 0`.
 * Timers and `fetch` become explicit events: a poll carries the response it
 * got, a tick is one second of the countdown interval.
 */
module ExpiryWatch {
  import opened Opt
  import opened Text
  import opened Http
  import MeRoute
  import Session

  /** Warn when at most ten minutes remain. */
  const WarningThreshold: int := 600
  /** Assumed remaining lifetime when the reply names no expiry. */
  const DefaultLifetime: int := 3600

  /** What the poll's `fetch('/api/auth/me')` produced. */
  datatype PollResult =
    | FetchFailed                              // the promise rejected
    | NotOk                                    // `response.ok` is false
    | Ok(sessionExpiry: Option<int>)           // a 2xx reply; `sessionExpiry` if the body had one

  datatype Watch = Watch(showWarning: bool, timeLeft: int)

  /** `(data.sessionExpiry || now + 3600) - now`: a missing or zero expiry falls back to an hour. */
  function Remaining(sessionExpiry: Option<int>, nowSec: int): (r: int)
    ensures sessionExpiry.None? || sessionExpiry.value == 0 ==> r == DefaultLifetime
    ensures sessionExpiry.Some? && sessionExpiry.value != 0 ==> r == sessionExpiry.value - nowSec
  {
    var expiry := if sessionExpiry.Some? && sessionExpiry.value != 0 then sessionExpiry.value else nowSec + DefaultLifetime;
    expiry - nowSec
  }

  /** One `checkSessionExpiry` run. */
  function Poll(w: Watch, result: PollResult, nowMs: int): (w': Watch)
    ensures (result.Ok? && Remaining(result.sessionExpiry, nowMs / 1000) <= WarningThreshold) ==>
      w' == Watch(true, Remaining(result.sessionExpiry, nowMs / 1000))
    ensures !(result.Ok? && Remaining(result.sessionExpiry, nowMs / 1000) <= WarningThreshold) ==> w' == w
    ensures w.showWarning ==> w'.showWarning
  {
    match result
    case Ok(expiry) =>
      var timeUntilExpiry := Remaining(expiry, nowMs / 1000);
      if timeUntilExpiry <= WarningThreshold then Watch(true, timeUntilExpiry) else w
    case _ => w
  }

  /** One second of the countdown: returns the new state and whether `logout()` was called. */
  function Tick(w: Watch): (r: (Watch, bool))
    ensures w.timeLeft > 1 ==> r == (Watch(w.showWarning, w.timeLeft - 1), false)
    ensures w.timeLeft == 1 ==> r == (Watch(false, 0), true)
    ensures w.timeLeft <= 0 ==> r == (w, false)
    ensures w.timeLeft >= 0 ==> 0 <= r.0.timeLeft < w.timeLeft || (w.timeLeft == 0 && r.0 == w)
  {
    if w.timeLeft > 0 then
      if w.timeLeft <= 1 then (Watch(false, 0), true)
      else (Watch(w.showWarning, w.timeLeft - 1), false)
    else (w, false)
  }

  /** `k` seconds of the countdown, with the number of `logout()` calls made. */
  function Ticks(w: Watch, k: nat): (Watch, nat)
    decreases k
  {
    if k == 0 then (w, 0)
    else
      var (w1, out) := Tick(w);
      var (w2, n) := Ticks(w1, k - 1);
      (w2, n + (if out then 1 else 0))
  }

  /** Before it runs out, a countdown from `t` shows `t - k` after `k` seconds and never logs out. */
  lemma {:induction false} CountdownRunning(w: Watch, k: nat)
    requires k < w.timeLeft
    ensures Ticks(w, k) == (Watch(w.showWarning, w.timeLeft - k), 0)
    decreases k
  {
    if k > 0 {
      CountdownRunning(Tick(w).0, k - 1);
    }
  }

  /** A countdown from `t > 0` ends at `0`, hidden, with exactly one `logout()`, however long after. */
  lemma {:induction false} CountdownExpires(w: Watch, k: nat)
    requires 0 < w.timeLeft <= k
    ensures Ticks(w, k) == (Watch(false, 0), 1)
    decreases k
  {
    var (w1, out) := Tick(w);
    if w.timeLeft == 1 {
      IdleCountdownStays(w1, k - 1);
    } else {
      CountdownExpires(w1, k - 1);
    }
  }

  /** With `timeLeft <= 0` no countdown runs: nothing changes and nobody is logged out. */
  lemma {:induction false} IdleCountdownStays(w: Watch, k: nat)
    requires w.timeLeft <= 0
    ensures Ticks(w, k) == (w, 0)
    decreases k
  {
    if k > 0 {
      IdleCountdownStays(w, k - 1);
    }
  }

  /** The body `/api/auth/me` returns as the poll sees it: `me` never sends `sessionExpiry`. */
  function PollResultOf(reply: Reply<MeRoute.MeReply>): (p: PollResult)
    ensures 200 <= reply.status < 300 ==> p == Ok(None)
    ensures !(200 <= reply.status < 300) ==> p == NotOk
  {
    if 200 <= reply.status < 300 then Ok(None) else NotOk
  }

  /** Against the real `me` route a poll computes 3600 seconds left and never changes the state. */
  lemma RealPollsNeverWarn(w: Watch, codec: Session.Codec, env: Option<string>, cookies: map<string, string>, nowMs: int)
    ensures Poll(w, PollResultOf(MeRoute.Me(codec, env, cookies, nowMs)), nowMs) == w
  {
  }

  lemma MulSign(b: int, x: int)
    requires b > 0
    ensures x >= 1 ==> b * x >= b
    ensures x <= -1 ==> b * x <= -b
  {
  }

  /** A multiple of `b` leaves no remainder. */
  lemma MultipleMod(b: int, k: int)
    requires b > 0
    ensures (b * k) % b == 0
  {
    var d, r := (b * k) / b, (b * k) % b;
    assert b * k == b * d + r && 0 <= r < b;
    assert r == b * (k - d);
    MulSign(b, k - d);
  }

  /** JavaScript's `%` truncates toward zero. */
  function JsRem(a: int, b: int): (r: int)
    requires b > 0
    ensures a >= 0 ==> r == a % b
    ensures a < 0 ==> -b < r <= 0 && (a - r) % b == 0
  {
    if a >= 0 then a % b
    else
      var q, m := (-a) / b, (-a) % b;
      assert -a == b * q + m;
      assert a + m == b * -q;
      MultipleMod(b, -q);
      -m
  }

  /** The countdown text `{minutes}:{seconds.toString().padStart(2, '0')}`. */
  function Label(timeLeft: int): string {
    IntToString(timeLeft / 60) + ":" + PadStart2(IntToString(JsRem(timeLeft, 60)))
  }

  /** For a non-negative count the label is minutes, a colon and exactly two digits of seconds. */
  lemma LabelShape(t: nat)
    ensures Label(t) == NatToString(t / 60) + ":" + PadStart2(NatToString(t % 60))
    ensures |PadStart2(NatToString(t % 60))| == 2
    ensures (t / 60) * 60 + t % 60 == t
  {
    assert t % 60 < 60;
    if t % 60 >= 10 {
      assert |NatToString(t % 60)| == 2 by {
        assert NatToString(t % 60) == NatToString(t % 60 / 10) + [DigitChar(t % 60 % 10)];
      }
    }
  }

  /** Nine minutes left reads `9:00`. */
  lemma NineMinutesLabel()
    ensures Label(540) == "9:00"
  {
    assert IntToString(540 / 60) == "9";
    assert IntToString(JsRem(540, 60)) == "0";
  }

  /** Remaining time of 540 seconds raises the warning with a countdown from 540. */
  lemma NineMinuteWarning(w: Watch, nowMs: int)
    requires nowMs >= 0
    ensures Poll(w, Ok(Some(nowMs / 1000 + 540)), nowMs) == Watch(true, 540)
  {
  }

  /** The component's state, updated in place by the poll and the countdown. */
  class Notification {
    var showWarning: bool
    var timeLeft: int
    /** How many times `logout()` has been called. */
    var logoutCalls: nat

    function State(): Watch
      reads this
    {
      Watch(showWarning, timeLeft)
    }

    constructor ()
      ensures State() == Watch(false, 0) && logoutCalls == 0
    {
      showWarning, timeLeft, logoutCalls := false, 0, 0;
    }

    /** `checkSessionExpiry`, with the outcome of its `fetch`. */
    method CheckSessionExpiry(result: PollResult, nowMs: int)
      modifies this
      ensures State() == Poll(old(State()), result, nowMs)
      ensures logoutCalls == old(logoutCalls)
    {
      match result {
        case Ok(expiry) =>
          var now := nowMs / 1000;
          var timeUntilExpiry := Remaining(expiry, now);
          if timeUntilExpiry <= WarningThreshold {
            showWarning := true;
            timeLeft := timeUntilExpiry;
          }
        case _ =>
      }
    }

    /** One second: the interval fires only while `timeLeft > 0`. */
    method Second()
      modifies this
      ensures (State(), logoutCalls > old(logoutCalls)) == Tick(old(State()))
      ensures logoutCalls <= old(logoutCalls) + 1
    {
      if timeLeft > 0 {
        if timeLeft <= 1 {
          showWarning := false;
          logoutCalls := logoutCalls + 1;
          timeLeft := 0;
        } else {
          timeLeft := timeLeft - 1;
        }
      }
    }

    /** What is rendered: nothing, or the countdown label. */
    function Rendered(): (r: Option<string>)
      reads this
      ensures r.Some? <==> showWarning
    {
      if showWarning then Some(Label(timeLeft)) else None
    }
  }
}
