/**
 * Pausing and resuming a pool. The pause flag is an atomic; waiters sleep on a `Notify`, whose
 * `notify_waiters` wakes everyone who had taken a ticket before it.
 */
module Pause {

  /** Where a task stands inside `wait_paused`. */
  datatype Waiter =
    | Ready                               // about to call
    | Ticketed(generation: nat)           // has `notified()`, has not looked at the flag
    | Asleep(generation: nat)             // saw the flag set and awaits its ticket
    | Returned(sawPaused: bool)

  /** Where a task stands inside `resume`. */
  datatype Resumer = Stored | Notified

  datatype State = State(
    paused: bool,
    generation: nat,                      // how often `notify_waiters` has run
    waiters: map<nat, Waiter>,
    resumers: map<nat, Resumer>)

  datatype Action =
    | Arrive(task: nat)
    | TakeTicket(task: nat)
    | Look(task: nat)
    | Wake(task: nat)
    | PauseIt
    | StoreFalse(task: nat)
    | Notify(task: nat)

  function Apply(s: State, a: Action): State {
    match a
    case Arrive(t) => if t in s.waiters then s else s.(waiters := s.waiters[t := Ready])
    case TakeTicket(t) =>
      if t in s.waiters && s.waiters[t].Ready? then s.(waiters := s.waiters[t := Ticketed(s.generation)]) else s
    case Look(t) =>
      if t in s.waiters && s.waiters[t].Ticketed? then
        s.(waiters := s.waiters[t := if s.paused then Asleep(s.waiters[t].generation) else Returned(false)])
      else s
    case Wake(t) =>
      if CanWake(s, t) then s.(waiters := s.waiters[t := Returned(true)]) else s
    case PauseIt => s.(paused := true)
    case StoreFalse(t) =>
      if t in s.resumers then s else s.(paused := false, resumers := s.resumers[t := Stored])
    case Notify(t) =>
      if t in s.resumers && s.resumers[t].Stored? then
        s.(generation := s.generation + 1, resumers := s.resumers[t := Notified])
      else s
  }

  /** A sleeper can go on once its ticket is out of date. */
  predicate CanWake(s: State, t: nat) {
    t in s.waiters && s.waiters[t].Asleep? && s.waiters[t].generation < s.generation
  }

  function Run(s: State, actions: seq<Action>): State
    decreases |actions|
  {
    if actions == [] then s else Run(Apply(s, actions[0]), actions[1..])
  }

  const START: State := State(false, 0, map[], map[])

  ghost predicate ResumeUnderWay(s: State) {
    exists r :: r in s.resumers && s.resumers[r].Stored?
  }

  ghost predicate NoTicketFromTheFuture(s: State) {
    forall t :: t in s.waiters ==>
      match s.waiters[t]
      case Ticketed(g) => g <= s.generation
      case Asleep(g) => g <= s.generation
      case _ => true
  }

  /** A sleeper that cannot be woken yet will be: the pool is paused, or a resume is about to notify. */
  ghost predicate NoLostWakeup(s: State) {
    forall t :: t in s.waiters && s.waiters[t].Asleep? && !CanWake(s, t) ==> s.paused || ResumeUnderWay(s)
  }

  lemma ApplyKeeps(s: State, a: Action)
    requires NoTicketFromTheFuture(s) && NoLostWakeup(s)
    ensures NoTicketFromTheFuture(Apply(s, a)) && NoLostWakeup(Apply(s, a))
  {
    var d := Apply(s, a);
    if ResumeUnderWay(s) && !(a.Notify? && a.task in s.resumers && s.resumers[a.task].Stored?) {
      var r :| r in s.resumers && s.resumers[r].Stored?;
      assert r in d.resumers && d.resumers[r].Stored?;
    }
    if a.StoreFalse? && a.task !in s.resumers {
      assert d.resumers[a.task].Stored?;
    }
    forall t | t in d.waiters && d.waiters[t].Asleep? && !CanWake(d, t) ensures d.paused || ResumeUnderWay(d) {
      if t in s.waiters && s.waiters[t].Asleep? {
        assert !CanWake(s, t);
      }
    }
  }

  /**
   * In every interleaving of any number of waiters, pauses and resumes, a waiter still blocked on
   * the current generation implies that the pool is paused or some resume has yet to notify.
   */
  lemma {:induction false} WakeupsAreNeverLost(s: State, actions: seq<Action>)
    requires NoTicketFromTheFuture(s) && NoLostWakeup(s)
    ensures NoTicketFromTheFuture(Run(s, actions)) && NoLostWakeup(Run(s, actions))
    decreases |actions|
  {
    if actions != [] {
      ApplyKeeps(s, actions[0]);
      WakeupsAreNeverLost(Apply(s, actions[0]), actions[1..]);
    }
  }

  /** Once the pool is resumed and every resume has run to its end, every waiter can go on. */
  lemma EveryoneCanGoOn(actions: seq<Action>, t: nat)
    requires var s := Run(START, actions);
             !s.paused && !ResumeUnderWay(s) && t in s.waiters && s.waiters[t].Asleep?
    ensures CanWake(Run(START, actions), t)
    ensures Apply(Run(START, actions), Wake(t)).waiters[t] == Returned(true)
  {
    WakeupsAreNeverLost(START, actions);
  }
}
