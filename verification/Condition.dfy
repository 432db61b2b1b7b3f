/** A condition variable (logging/Condition.h) as sets of threads. */
module Condition {

  /** The threads in one kind of call: `ready` are about to take the mutex (they have just come, or woke for no reason),
      `signalled` were woken by a notification and have still to take the mutex, `waiting` sleep. */
  datatype Cond = Cond(ready: set<nat>, signalled: set<nat>, waiting: set<nat>)

  predicate Valid(c: Cond) {
    c.ready !! c.signalled && c.ready !! c.waiting && c.signalled !! c.waiting
  }

  predicate Inside(c: Cond, t: nat) { t in c.ready || t in c.signalled || t in c.waiting }

  predicate Awake(c: Cond, t: nat) { t in c.ready || t in c.signalled }

  /** Everybody in the call. */
  function Callers(c: Cond): set<nat> { c.ready + c.signalled + c.waiting }

  lemma Arrived(c: Cond, t: nat)
    requires !Inside(c, t)
    ensures |Callers(Arrive(c, t))| == |Callers(c)| + 1
  {
    assert Callers(Arrive(c, t)) == Callers(c) + {t};
  }

  lemma Left(c: Cond, t: nat)
    requires Valid(c) && Awake(c, t)
    ensures |Callers(Leave(c, t))| == |Callers(c)| - 1
  {
    var rest := Callers(Leave(c, t));
    assert t !in rest;
    assert Callers(c) == rest + {t};
  }

  lemma Stayed(c: Cond, t: nat)
    ensures Inside(c, t) ==> Callers(Wait(c, t)) == Callers(c)
    ensures t in c.waiting ==> Callers(Spurious(c, t)) == Callers(c)
    ensures Wakes(c, t) ==> Callers(Notify(c, t)) == Callers(c)
    ensures Callers(NotifyAll(c)) == Callers(c)
  {}

  function None(): Cond { Cond({}, {}, {}) }

  function Arrive(c: Cond, t: nat): Cond { c.(ready := c.ready + {t}) }

  function Leave(c: Cond, t: nat): Cond { c.(ready := c.ready - {t}, signalled := c.signalled - {t}) }

  function Wait(c: Cond, t: nat): Cond { Leave(c, t).(waiting := c.waiting + {t}) }

  /** pthread_cond_wait may return unasked. */
  function Spurious(c: Cond, t: nat): Cond { c.(waiting := c.waiting - {t}, ready := c.ready + {t}) }

  /** A notification wakes somebody, if there is anybody; the kernel chooses whom. */
  predicate Wakes(c: Cond, woken: nat) { c.waiting != {} ==> woken in c.waiting }

  function Notify(c: Cond, woken: nat): Cond {
    if c.waiting == {} then c else c.(waiting := c.waiting - {woken}, signalled := c.signalled + {woken})
  }

  function NotifyAll(c: Cond): Cond {
    c.(waiting := {}, signalled := c.signalled + c.waiting)
  }

  /** While somebody waits, there are no more chances to go on than threads on their way to take them. */
  predicate Covered(c: Cond, chances: int) {
    c.waiting != {} ==> chances <= |c.signalled|
  }

  lemma NotifyCovers(c: Cond, woken: nat, chances: int)
    requires Valid(c) && Wakes(c, woken) && Covered(c, chances)
    ensures Valid(Notify(c, woken)) && Covered(Notify(c, woken), chances + 1)
  {}

  lemma LeaveCovers(c: Cond, t: nat, chances: int)
    requires Valid(c) && Awake(c, t) && Covered(c, chances)
    ensures Valid(Leave(c, t)) && Covered(Leave(c, t), chances - 1)
  {
    if t in c.signalled {
      assert |c.signalled - {t}| == |c.signalled| - 1;
    } else {
      assert c.signalled - {t} == c.signalled;
    }
  }

  lemma WaitCovers(c: Cond, t: nat)
    requires Valid(c) && Awake(c, t)
    ensures Valid(Wait(c, t)) && Covered(Wait(c, t), 0)
  {}

  lemma ArriveCovers(c: Cond, t: nat, chances: int)
    requires Valid(c) && !Inside(c, t) && Covered(c, chances)
    ensures Valid(Arrive(c, t)) && Covered(Arrive(c, t), chances)
  {}

  lemma SpuriousCovers(c: Cond, t: nat, chances: int)
    requires Valid(c) && t in c.waiting && Covered(c, chances)
    ensures Valid(Spurious(c, t)) && Covered(Spurious(c, t), chances)
  {}

  lemma NotifyAllWakes(c: Cond, t: nat)
    requires Valid(c)
    ensures Valid(NotifyAll(c)) && NotifyAll(c).waiting == {} && (Inside(c, t) ==> Awake(NotifyAll(c), t))
  {}
}
