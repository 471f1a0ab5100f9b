/**
  The session timeout warning (`src/components/SessionTimeoutDialog.tsx`): a
  countdown of `timeLeft` seconds that runs while the dialog is open and calls
  `onLogout` when it reaches zero.

  The two effects run after each commit in the order they are declared, each
  only when one of its dependencies changed. Opening the dialog therefore runs
  the countdown effect once on the `timeLeft` of the closed dialog, before the
  reset to `remainingTime` takes effect; the countdown effect then runs again
  if the reset changed `timeLeft`. `ticking` says whether an interval is
  registered. The `onLogout` callback is taken to keep its identity between
  renders, and `remainingTime` is fixed for the life of the dialog.
*/
module SessionTimeoutDialogs {
  import opened Wrappers

  const DefaultRemainingTime := 60

  class SessionTimeoutDialog {
    const remainingTime: int
    var open: bool
    var timeLeft: int
    var ticking: bool
    /** Calls of `onLogout`. */
    var logouts: nat

    /** An interval runs exactly while the dialog is open with time left. */
    predicate Valid()
      reads this
    {
      ticking == (open && timeLeft > 0)
    }

    /** The countdown effect, after its cleanup cleared the previous interval. */
    method CountdownEffect()
      modifies this
      ensures Valid()
      ensures logouts == old(logouts) + (if open && timeLeft <= 0 then 1 else 0)
      ensures open == old(open) && timeLeft == old(timeLeft)
    {
      ticking := false;
      if open {
        if timeLeft <= 0 {
          logouts := logouts + 1;
        } else {
          ticking := true;
        }
      }
    }

    /** Mounting: `timeLeft` starts at `remainingTime` (60 when not given), and the countdown
        effect runs once. */
    constructor(open: bool, remainingTime: Option<int>)
      ensures Valid()
      ensures this.remainingTime == remainingTime.GetOr(DefaultRemainingTime)
      ensures this.open == open && timeLeft == this.remainingTime
      ensures logouts == (if open && this.remainingTime <= 0 then 1 else 0)
    {
      this.remainingTime := remainingTime.GetOr(DefaultRemainingTime);
      this.open := open;
      timeLeft := remainingTime.GetOr(DefaultRemainingTime);
      ticking := false;
      logouts := 0;
      new;
      CountdownEffect();
    }

    /** A change of the `open` prop and the commits that follow it. Opening resets `timeLeft`
        to `remainingTime`; closing stops the countdown and keeps `timeLeft`. */
    method SetOpen(o: bool)
      requires Valid()
      modifies this
      ensures Valid()
      ensures open == o
      ensures o == old(open) ==> timeLeft == old(timeLeft) && ticking == old(ticking) && logouts == old(logouts)
      ensures !o && old(open) ==> timeLeft == old(timeLeft) && !ticking && logouts == old(logouts)
      ensures o && !old(open) ==>
                && timeLeft == remainingTime && ticking == (remainingTime > 0)
                && logouts == old(logouts) + (if old(timeLeft) <= 0 then 1 else 0)
                                          + (if remainingTime != old(timeLeft) && remainingTime <= 0 then 1 else 0)
    {
      if o == open {
        return;
      }
      open := o;
      CountdownEffect();
      if o && timeLeft != remainingTime {
        timeLeft := remainingTime;
        CountdownEffect();
      }
    }

    /** One second of the interval: `timeLeft` drops by one and the countdown effect runs
        again, logging out when no time is left. */
    method Tick()
      requires Valid()
      requires ticking
      modifies this
      ensures Valid()
      ensures open && timeLeft == old(timeLeft) - 1
      ensures ticking == (timeLeft > 0)
      ensures logouts == old(logouts) + (if timeLeft == 0 then 1 else 0)
    {
      timeLeft := timeLeft - 1;
      CountdownEffect();
    }

    /** Letting an open dialog run: the countdown ends after exactly `timeLeft` ticks, with one
        call of `onLogout` and no interval left. */
    method RunOut() returns (ticks: nat)
      requires Valid()
      requires ticking
      modifies this
      ensures Valid()
      ensures ticks == old(timeLeft)
      ensures open && timeLeft == 0 && !ticking
      ensures logouts == old(logouts) + 1
    {
      ticks := 0;
      while ticking
        invariant Valid() && open
        invariant timeLeft == old(timeLeft) - ticks
        invariant ticking ==> logouts == old(logouts)
        invariant !ticking ==> timeLeft == 0 && logouts == old(logouts) + 1
        decreases timeLeft
      {
        Tick();
        ticks := ticks + 1;
      }
    }
  }

  /** An open dialog with `n` seconds logs out after exactly `n` ticks. */
  method CountdownFrom(n: nat) returns (d: SessionTimeoutDialog, ticks: nat)
    ensures ticks == n && d.logouts == 1 && d.timeLeft == 0 && !d.ticking
  {
    d := new SessionTimeoutDialog(true, Some(n));
    ticks := 0;
    if d.ticking {
      ticks := d.RunOut();
    }
  }

  /** A dialog whose countdown ran out, closed and opened again calls `onLogout` a second time
      on opening, before the reset restarts the countdown. */
  method ReopenAfterRunOut() returns (d: SessionTimeoutDialog)
    ensures d.logouts == 2 && d.timeLeft == DefaultRemainingTime && d.ticking
  {
    d := new SessionTimeoutDialog(true, None);
    var _ := d.RunOut();
    d.SetOpen(false);
    d.SetOpen(true);
  }
}
