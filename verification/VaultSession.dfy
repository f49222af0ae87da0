// The timed lock of VaultAuthState.
module VaultSession {
  import opened Envelope
  import opened Models
  import opened Wrappers

  /** What happens to a session. `Unlocked` and `UnlockFailed` are the two ends of `unlock`. */
  datatype Event =
    | Unlocked(key: SecretKey, duration: int)
    | UnlockFailed
    | Lock
    | Poke
    | Fire
    | Elapse(seconds: nat)

  /** `timer` is the deadline of the timer that is active, if any. */
  datatype Session = Session(
    masterKey: Option<SecretKey>,
    timer: Option<Time>,
    lockDurationSeconds: int,
    state: Option<SecretKey>,
    now: Time)

  const START := Session(None, None, 600, None, 0)

  // A negative duration counts as zero.
  function Deadline(now: Time, duration: int): Time {
    now + if duration < 0 then 0 else duration
  }

  // A timer fires once it is due, and time does not pass a due timer by.
  predicate Possible(s: Session, e: Event) {
    match e
    case Fire => s.timer.Some? && s.now >= s.timer.value
    case Elapse(seconds) => s.timer.Some? ==> s.now + seconds <= s.timer.value
    case _ => true
  }

  function Step(s: Session, e: Event): Session {
    match e
    case Unlocked(key, duration) =>
      s.(masterKey := Some(key), lockDurationSeconds := duration,
         timer := Some(Deadline(s.now, duration)), state := Some(key))
    case UnlockFailed => s.(masterKey := None, state := None)
    case Lock => s.(masterKey := None, timer := None, state := None)
    case Poke => if s.masterKey.None? then s else s.(timer := Some(Deadline(s.now, s.lockDurationSeconds)))
    case Fire => s.(masterKey := None, timer := None, state := None)
    case Elapse(seconds) => s.(now := s.now + seconds)
  }

  class Timer {
    const deadline: Time
    var active: bool

    constructor (deadline: Time)
      ensures active && this.deadline == deadline
    {
      this.deadline := deadline;
      active := true;
    }
  }

  class VaultAuthState {
    var masterKey: Option<SecretKey>
    var lockTimer: Timer?
    var lockDurationSeconds: int
    var state: Option<SecretKey>
    ghost var started: set<Timer>

    // Of all timers ever started, only the current one can be active.
    ghost predicate Valid()
      reads this, started
    {
      && (lockTimer != null ==> lockTimer in started)
      && forall t :: t in started && t.active ==> t == lockTimer
    }

    ghost function Abstract(now: Time): Session
      reads this, lockTimer
    {
      Session(masterKey, if lockTimer != null && lockTimer.active then Some(lockTimer.deadline) else None,
              lockDurationSeconds, state, now)
    }

    constructor ()
      ensures Valid() && Abstract(0) == START && started == {}
      ensures masterKey == state == None && lockTimer == null && lockDurationSeconds == 600
    {
      masterKey, lockTimer, lockDurationSeconds, state := None, null, 600, None;
      started := {};
    }

    // `unlock`: the use case has answered with a key, or has thrown.
    method Unlock(result: Option<(SecretKey, int)>, now: Time)
      requires Valid()
      modifies this, lockTimer
      ensures Valid() && fresh(started - old(started)) && old(started) <= started
      ensures Abstract(now) == Step(old(Abstract(now)),
                                    if result.Some? then Unlocked(result.value.0, result.value.1) else UnlockFailed)
      ensures result.Some? ==>
        && masterKey == state == Some(result.value.0) && lockDurationSeconds == result.value.1
        && lockTimer != null && lockTimer.active && fresh(lockTimer)
        && lockTimer.deadline == now + if result.value.1 < 0 then 0 else result.value.1
      ensures result.None? ==>
        && masterKey == state == None && lockDurationSeconds == old(lockDurationSeconds)
        && lockTimer == old(lockTimer) && (lockTimer != null ==> lockTimer.active == old(lockTimer.active))
    {
      if result.Some? {
        masterKey := Some(result.value.0);
        lockDurationSeconds := result.value.1;
        ResetLockTimer(now);
        state := masterKey;
      } else {
        masterKey := None;
        state := None;
      }
    }

    // `lock`, called by the user or by a timer.
    method LockNow(now: Time)
      requires Valid()
      modifies this, lockTimer
      ensures Valid() && started == old(started)
      ensures Abstract(now) == Step(old(Abstract(now)), Lock)
      ensures masterKey == state == None && lockDurationSeconds == old(lockDurationSeconds)
      ensures forall t :: t in started ==> !t.active
    {
      masterKey := None;
      if lockTimer != null {
        lockTimer.active := false;
      }
      state := None;
    }

    // A timer that is due runs `lock`.
    method Expire(t: Timer, now: Time)
      requires Valid() && t in started && t.active && now >= t.deadline
      modifies this, t
      ensures Valid() && started == old(started)
      ensures Possible(old(Abstract(now)), Fire) && Abstract(now) == Step(old(Abstract(now)), Fire)
      ensures masterKey == state == None && lockDurationSeconds == old(lockDurationSeconds)
      ensures forall s :: s in started ==> !s.active
    {
      t.active := false;
      LockNow(now);
    }

    method PokeNow(now: Time)
      requires Valid()
      modifies this, lockTimer
      ensures Valid() && fresh(started - old(started)) && old(started) <= started
      ensures Abstract(now) == Step(old(Abstract(now)), Poke)
      ensures masterKey == old(masterKey) && state == old(state) && lockDurationSeconds == old(lockDurationSeconds)
      ensures masterKey.Some? ==>
        && lockTimer != null && lockTimer.active && fresh(lockTimer)
        && lockTimer.deadline == now + if lockDurationSeconds < 0 then 0 else lockDurationSeconds
      ensures masterKey.None? ==>
        lockTimer == old(lockTimer) && (lockTimer != null ==> lockTimer.active == old(lockTimer.active))
    {
      if masterKey.Some? {
        ResetLockTimer(now);
      }
    }

    method ResetLockTimer(now: Time)
      requires Valid()
      modifies this, lockTimer
      ensures Valid() && fresh(started - old(started)) && old(started) <= started
      ensures Abstract(now) == old(Abstract(now)).(timer :=
        Some(now + if old(lockDurationSeconds) < 0 then 0 else old(lockDurationSeconds)))
      ensures lockTimer != null && lockTimer.active && fresh(lockTimer) && lockTimer in started
      ensures forall t :: t in started && t.active ==> t == lockTimer
    {
      if lockTimer != null {
        lockTimer.active := false;
      }
      lockTimer := new Timer(Deadline(now, lockDurationSeconds));
      started := started + {lockTimer};
    }
  }

  // ----- runs

  function Run(events: seq<Event>): Session {
    if events == [] then START else Step(Run(events[..|events| - 1]), events[|events| - 1])
  }

  ghost predicate IsRun(events: seq<Event>) {
    forall i :: 0 <= i < |events| ==> Possible(Run(events[..i]), events[i])
  }

  // Read off the events alone: the clock, the last use of the open vault, the key that
  // the last decisive event left, and the duration that came with it.

  function Clock(events: seq<Event>): Time {
    if events == [] then 0
    else
      var e := events[|events| - 1];
      Clock(events[..|events| - 1]) + if e.Elapse? then e.seconds else 0
  }

  function HeldKey(events: seq<Event>): Option<SecretKey> {
    if events == [] then None
    else
      match events[|events| - 1]
      case Unlocked(key, _) => Some(key)
      case UnlockFailed => None
      case Lock => None
      case Fire => None
      case _ => HeldKey(events[..|events| - 1])
  }

  function Duration(events: seq<Event>): int {
    if events == [] then 600
    else if events[|events| - 1].Unlocked? then events[|events| - 1].duration
    else Duration(events[..|events| - 1])
  }

  function LastActivity(events: seq<Event>): Time {
    if events == [] then 0
    else
      var front, e := events[..|events| - 1], events[|events| - 1];
      if e.Unlocked? || (e.Poke? && HeldKey(front).Some?) then Clock(front) else LastActivity(front)
  }

  lemma {:induction false} RunReads(events: seq<Event>)
    requires IsRun(events)
    ensures var s := Run(events);
            && s.now == Clock(events)
            && s.masterKey == s.state == HeldKey(events)
            && s.lockDurationSeconds == Duration(events)
            && (s.timer.Some? ==> s.now <= s.timer.value)
            && (s.masterKey.Some? ==>
                  s.timer == Some(LastActivity(events) + if Duration(events) < 0 then 0 else Duration(events)))
  {
    if events != [] {
      var front := events[..|events| - 1];
      assert forall i :: 0 <= i < |front| ==> front[..i] == events[..i];
      assert forall i :: 0 <= i < |front| ==> Possible(Run(front[..i]), front[i]);
      RunReads(front);
      assert Possible(Run(events[..|front|]), events[|front|]);
    }
  }

  // The vault is open exactly as the last decisive event left it, what is published is
  // what is held, and it is never open past the last activity plus the duration.
  lemma OpenOnlyWhileActive(events: seq<Event>)
    requires IsRun(events)
    ensures Run(events).masterKey == Run(events).state == HeldKey(events)
    ensures Run(events).masterKey.Some? ==>
      Clock(events) <= LastActivity(events) + if Duration(events) < 0 then 0 else Duration(events)
  {
    RunReads(events);
  }

  // A timer locks an open vault at the last activity plus the duration, to the second:
  // that is when firing is possible, time may pass up to then, and a timer left over from before never fires early.
  lemma AutoLockIsExact(events: seq<Event>)
    requires IsRun(events) && HeldKey(events).Some?
    ensures Possible(Run(events), Fire)
       <==> Clock(events) == LastActivity(events) + if Duration(events) < 0 then 0 else Duration(events)
    ensures forall seconds: nat ::
      (Possible(Run(events), Elapse(seconds))
       <==> Clock(events) + seconds <= LastActivity(events) + if Duration(events) < 0 then 0 else Duration(events))
  {
    RunReads(events);
  }
}
