// The counting semaphore of src/server.rs as a step system: a counter under a mutex, and a
// condition variable that is notified after the mutex is released. Threads interleave freely,
// may overtake a woken thread, and may wake for no reason.
module Permits {
  import opened Records

  datatype Pc =
    | Idle        // outside
    | Entering    // in `acquire`, has not looked at the counter yet
    | Asleep      // waiting on the condition variable
    | Woken       // taken off it, must lock and look again
    | Holding     // has a permit
    | Returning   // dropping its permit, counter not yet raised
    | Notifying   // counter raised and mutex released, notification still to come

  datatype State = State(total: nat, free: nat, mutex: Option<nat>, pcs: map<nat, Pc>)

  datatype Action =
    | Call(t: nat)
    | Lock(t: nat)
    | Look(t: nat)
    | Drop(t: nat)
    | Return(t: nat)
    | Notify(t: nat, woken: Option<nat>)
    | WakeUnbidden(t: nat)

  function Threads(pcs: map<nat, Pc>, p: Pc): set<nat> {
    set t | t in pcs && pcs[t] == p
  }

  // A new semaphore has at least one permit.
  function Initial(n: nat, threads: set<nat>): State {
    var total := if n < 1 then 1 else n;
    State(total, total, None, map t | t in threads :: Idle)
  }

  predicate Allowed(s: State, a: Action) {
    && a.t in s.pcs
    && var p := s.pcs[a.t];
      match a
      case Call(_) => p == Idle
      case Lock(_) => s.mutex.None? && (p == Entering || p == Woken || p == Returning)
      case Look(t) => s.mutex == Some(t) && (p == Entering || p == Woken)
      case Drop(_) => p == Holding
      case Return(t) => s.mutex == Some(t) && p == Returning
      // Somebody asleep is woken; with nobody asleep the notification is lost.
      case Notify(_, woken) => p == Notifying &&
        (if woken.Some? then woken.value in s.pcs && s.pcs[woken.value] == Asleep else Threads(s.pcs, Asleep) == {})
      case WakeUnbidden(_) => p == Asleep
  }

  function Next(s: State, a: Action): State
    requires Allowed(s, a)
  {
    match a
    case Call(t) => s.(pcs := s.pcs[t := Entering])
    case Lock(t) => s.(mutex := Some(t))
    case Look(t) =>
      if s.free == 0 then s.(mutex := None, pcs := s.pcs[t := Asleep])
      else s.(mutex := None, free := s.free - 1, pcs := s.pcs[t := Holding])
    case Drop(t) => s.(pcs := s.pcs[t := Returning])
    case Return(t) => s.(mutex := None, free := s.free + 1, pcs := s.pcs[t := Notifying])
    case Notify(t, woken) =>
      var notified := if woken.Some? then s.pcs[woken.value := Woken] else s.pcs;
      s.(pcs := notified[t := Idle])
    case WakeUnbidden(t) => s.(pcs := s.pcs[t := Woken])
  }

  function Count(s: State, p: Pc): nat {
    |Threads(s.pcs, p)|
  }

  function Held(s: State): nat {
    Count(s, Holding) + Count(s, Returning)
  }

  ghost predicate Inv(s: State) {
    // conservation
    && s.free + Held(s) == s.total
    // whoever holds the mutex is about to use it
    && (s.mutex.Some? ==> s.mutex.value in s.pcs && s.pcs[s.mutex.value] in {Entering, Woken, Returning})
    // while anyone sleeps, enough threads are on their way to take every free permit
    && (Count(s, Asleep) > 0 ==> Count(s, Notifying) + Count(s, Woken) >= s.free)
  }

  // ---- Counting ----

  function Change(from: Pc, to: Pc, p: Pc): int {
    (if p == to then 1 else 0) - (if p == from then 1 else 0)
  }

  lemma Moved(pcs: map<nat, Pc>, t: nat, q: Pc, p: Pc)
    requires t in pcs
    ensures |Threads(pcs[t := q], p)| == |Threads(pcs, p)| + Change(pcs[t], q, p)
  {
    var before, after := Threads(pcs, p), Threads(pcs[t := q], p);
    if p == q {
      assert after == before + {t};
    } else {
      assert after == before - {t};
    }
  }

  lemma MovedAll(pcs: map<nat, Pc>, t: nat, q: Pc)
    requires t in pcs
    ensures forall p :: |Threads(pcs[t := q], p)| == |Threads(pcs, p)| + Change(pcs[t], q, p)
  {
    forall p { Moved(pcs, t, q, p); }
  }

  lemma SomeoneThere(pcs: map<nat, Pc>, t: nat)
    requires t in pcs
    ensures |Threads(pcs, pcs[t])| > 0
  {
    assert t in Threads(pcs, pcs[t]);
  }

  // ---- Every interleaving ----

  lemma InitialInv(n: nat, threads: set<nat>)
    ensures Inv(Initial(n, threads)) && Initial(n, threads).total >= 1
  {
    var s := Initial(n, threads);
    assert forall p :: p != Idle ==> Threads(s.pcs, p) == {};
  }

  lemma NotifyKeeps(s: State, a: Action)
    requires Inv(s) && a.Notify? && Allowed(s, a)
    ensures Inv(Next(s, a)) && Next(s, a).total == s.total
  {
    if a.woken.Some? {
      MovedAll(s.pcs, a.woken.value, Woken);
      MovedAll(s.pcs[a.woken.value := Woken], a.t, Idle);
    } else {
      MovedAll(s.pcs, a.t, Idle);
    }
  }

  lemma InvKept(s: State, a: Action)
    requires Inv(s) && Allowed(s, a)
    ensures Inv(Next(s, a)) && Next(s, a).total == s.total
  {
    SomeoneThere(s.pcs, a.t);
    match a {
      case Call(t) => MovedAll(s.pcs, t, Entering);
      case Lock(_) =>
      case Look(t) => MovedAll(s.pcs, t, if s.free == 0 then Asleep else Holding);
      case Drop(t) => MovedAll(s.pcs, t, Returning);
      case Return(t) => MovedAll(s.pcs, t, Notifying);
      case Notify(t, woken) => NotifyKeeps(s, a);
      case WakeUnbidden(t) => MovedAll(s.pcs, t, Woken);
    }
  }

  ghost predicate AllAllowed(s: State, steps: seq<Action>)
    decreases |steps|
  {
    steps == [] || (Allowed(s, steps[0]) && AllAllowed(Next(s, steps[0]), steps[1..]))
  }

  ghost function Outcome(s: State, steps: seq<Action>): State
    requires AllAllowed(s, steps)
    decreases |steps|
  {
    if steps == [] then s else Outcome(Next(s, steps[0]), steps[1..])
  }

  lemma {:induction false} ReachableInv(s: State, steps: seq<Action>)
    requires Inv(s) && AllAllowed(s, steps)
    ensures Inv(Outcome(s, steps)) && Outcome(s, steps).total == s.total
    decreases |steps|
  {
    if steps != [] {
      InvKept(s, steps[0]);
      ReachableInv(Next(s, steps[0]), steps[1..]);
    }
  }

  // In every interleaving no permit is lost or invented, and no wake-up is lost.
  lemma PermitsAreSafe(n: nat, threads: set<nat>, steps: seq<Action>)
    requires AllAllowed(Initial(n, threads), steps)
    ensures var s := Outcome(Initial(n, threads), steps);
      && s.free + Held(s) == s.total == Initial(n, threads).total && Held(s) <= s.total
      && (Count(s, Asleep) > 0 ==> Count(s, Notifying) + Count(s, Woken) >= s.free)
  {
    InitialInv(n, threads);
    ReachableInv(Initial(n, threads), steps);
  }

  // Nobody sleeps beside a free permit once things have settled: then every permit is held.
  lemma QuietMeansAllHeld(s: State)
    requires Inv(s) && Count(s, Asleep) > 0
    requires forall t :: t in s.pcs ==> s.pcs[t] in {Idle, Asleep, Holding}
    ensures s.free == 0 && Count(s, Holding) == s.total
  {
    assert forall p :: p !in {Idle, Asleep, Holding} ==> Threads(s.pcs, p) == {};
  }

  // While someone sleeps beside a free permit, a thread other than the sleepers can always move.
  lemma NeverStuck(s: State) returns (a: Action)
    requires Inv(s) && Count(s, Asleep) > 0 && s.free > 0
    ensures Allowed(s, a) && !a.Call? && !a.WakeUnbidden? && s.pcs[a.t] != Asleep
  {
    if s.mutex.Some? {
      a := if s.pcs[s.mutex.value] == Returning then Return(s.mutex.value) else Look(s.mutex.value);
    } else if Threads(s.pcs, Woken) != {} {
      var t :| t in Threads(s.pcs, Woken);
      a := Lock(t);
    } else {
      assert Threads(s.pcs, Notifying) != {};
      var t :| t in Threads(s.pcs, Notifying);
      var u :| u in Threads(s.pcs, Asleep);
      a := Notify(t, Some(u));
    }
  }
}
