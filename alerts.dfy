/** The cooldown gate of playAlertSound (main.go:46-48, 154-168): the audible
    alert is skipped while less than `AlertCooldown` has passed since the
    last alert, and the last-alert time is recorded once the sound has
    finished playing.

    Clock readings are integer seconds from a monotonic clock. */
module Alerts {
  import opened Wrappers

  /** `alertCooldown = 1 * time.Minute`, in seconds. */
  const AlertCooldown: int := 60

  /** `time.Since(lastAlertTime) >= alertCooldown`. `None` stands for Go's zero
      `time.Time`, which lies before every clock reading, so the first alert is
      never held back. */
  predicate CooldownElapsed(lastAlertTime: Option<int>, now: int)
  {
    lastAlertTime.None? || now - lastAlertTime.value >= AlertCooldown
  }

  /** The package-level `lastAlertTime` of main.go, with playAlertSound as its
      one operation. */
  class AlertClock {
    var lastAlertTime: Option<int>

    constructor ()
      ensures lastAlertTime == None
    {
      lastAlertTime := None;
    }

    /** One call of playAlertSound: `now` is the clock when it starts and
        `finished` the clock once the one-second tone has played. */
    method PlayAlertSound(now: int, finished: int) returns (fired: bool)
      modifies this
      ensures fired <==> CooldownElapsed(old(lastAlertTime), now)
      ensures !fired ==> lastAlertTime == old(lastAlertTime)
      ensures fired ==> lastAlertTime == Some(finished)
      ensures lastAlertTime == Step(old(lastAlertTime), Call(now, finished))
    {
      if !CooldownElapsed(lastAlertTime, now) {
        return false;
      }
      // the tone itself is played here and is not part of the model
      lastAlertTime := Some(finished);
      return true;
    }
  }

  /** One call of playAlertSound, by its two clock readings. */
  datatype Call = Call(start: int, finish: int)

  /** The last-alert time after one call. */
  function Step(lastAlertTime: Option<int>, c: Call): Option<int>
  {
    if CooldownElapsed(lastAlertTime, c.start) then Some(c.finish) else lastAlertTime
  }

  /** The last-alert time after a run of calls that follow one another. */
  function LastAfter(lastAlertTime: Option<int>, calls: seq<Call>): Option<int>
  {
    if calls == [] then lastAlertTime
    else Step(LastAfter(lastAlertTime, calls[..|calls| - 1]), calls[|calls| - 1])
  }

  /** Whether call `j` of a run plays the tone. */
  predicate FiredAt(lastAlertTime: Option<int>, calls: seq<Call>, j: nat)
    requires j < |calls|
  {
    CooldownElapsed(LastAfter(lastAlertTime, calls[..j]), calls[j].start)
  }

  /** Each call starts after the previous one has finished. */
  predicate Sequential(calls: seq<Call>)
  {
    (forall i :: 0 <= i < |calls| ==> calls[i].start <= calls[i].finish) &&
    (forall i :: 0 < i < |calls| ==> calls[i - 1].finish <= calls[i].start)
  }

  /** Once call `i` has fired, the recorded time is never earlier than the
      moment that call finished. */
  lemma {:induction false} LastAfterFiring(lastAlertTime: Option<int>, calls: seq<Call>, i: nat, j: nat)
    requires Sequential(calls)
    requires i < j <= |calls|
    requires FiredAt(lastAlertTime, calls, i)
    ensures LastAfter(lastAlertTime, calls[..j]).Some?
    ensures LastAfter(lastAlertTime, calls[..j]).value >= calls[i].finish
    decreases j
  {
    assert calls[..j][..j - 1] == calls[..j - 1];
    if j == i + 1 {
      assert calls[..j][j - 1] == calls[i];
    } else {
      LastAfterFiring(lastAlertTime, calls, i, j - 1);
      assert calls[..j][j - 1] == calls[j - 1];
      assert calls[i].finish <= calls[j - 2].finish <= calls[j - 1].finish by {
        FinishesOrdered(calls, i, j - 2);
      }
    }
  }

  lemma {:induction false} FinishesOrdered(calls: seq<Call>, i: nat, j: nat)
    requires Sequential(calls)
    requires i <= j < |calls|
    ensures calls[i].finish <= calls[j].finish
    decreases j - i
  {
    if i < j {
      FinishesOrdered(calls, i, j - 1);
      assert calls[j - 1].finish <= calls[j].start <= calls[j].finish;
    }
  }

  /** The tone never plays twice within one cooldown window: between the end
      of one alert and the start of the next that fires lie at least
      `AlertCooldown` seconds. */
  lemma FiringsSeparated(lastAlertTime: Option<int>, calls: seq<Call>, i: nat, j: nat)
    requires Sequential(calls)
    requires i < j < |calls|
    requires FiredAt(lastAlertTime, calls, i) && FiredAt(lastAlertTime, calls, j)
    ensures calls[j].start - calls[i].finish >= AlertCooldown
  {
    LastAfterFiring(lastAlertTime, calls, i, j);
  }

  /** A call that starts within the cooldown window of a call that fired is
      suppressed. */
  lemma SuppressedWithinWindow(lastAlertTime: Option<int>, calls: seq<Call>, i: nat, j: nat)
    requires Sequential(calls)
    requires i < j < |calls|
    requires FiredAt(lastAlertTime, calls, i)
    requires calls[j].start - calls[i].finish < AlertCooldown
    ensures !FiredAt(lastAlertTime, calls, j)
  {
    if FiredAt(lastAlertTime, calls, j) {
      FiringsSeparated(lastAlertTime, calls, i, j);
    }
  }
}
