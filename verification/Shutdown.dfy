// Closing the tenants of src/server.rs while requests, first opens and vector-index heals are
// still running: every thread advances one lock operation or flag read at a time.
module Shutdown {
  import opened Records

  type Tenant = nat
  type Thread = nat

  // An opened database: whose it is, and how many were opened before it.
  datatype Handle = Handle(tenant: Tenant, serial: nat)

  datatype Pc =
    | Idle
    | Admitted(tenant: Tenant)                  // read `closing` as clear
    | SeekingSlot(tenant: Tenant)               // found the slot, waits for its lock
    | InSlot(tenant: Tenant)                    // holds the slot lock
    | HasHandle(h: Handle)                      // slot lock released, pre-embeds
    | SeekingHandle(h: Handle)                  // read `closing` as clear again, waits for the tenant lock
    | Locked(h: Handle)                         // holds the tenant lock, has not re-read `closing`
    | Body(h: Handle)                           // runs the request
    | HealSeeking(tenant: Tenant)               // a heal waits for the slot lock
    | HealInSlot(tenant: Tenant)
    | HealOpening(tenant: Tenant)               // read `closing` as clear under the slot lock
    | HealOpened(tenant: Tenant, h: Handle)     // opened a handle nobody else knows
    | HealSwapping(tenant: Tenant, h: Handle)   // read `closing` as clear once more

  datatype Closer =
    | NotStarted
    | FlagSet
    | Sweeping(todo: set<Tenant>)
    | Taking(h: Handle, todo: set<Tenant>)      // took the handle out of its slot, waits for its lock
    | Flushing(h: Handle, todo: set<Tenant>)    // holds the tenant lock

  datatype Holder = Request(t: Thread) | TheCloser

  // The slots, who holds their locks, how many handles have been opened, and which of them a heal
  // has replaced.
  datatype Cache = Cache(slots: map<Tenant, Option<Handle>>, slotLocks: map<Tenant, Thread>, handles: nat,
    replaced: set<Handle>)

  // Whom the closer could not flush: still opening, still busy at the deadline, or failed.
  datatype Report = Report(opening: set<Tenant>, busy: set<Tenant>, failed: set<Tenant>)

  datatype State = State(
    closing: bool, cache: Cache,
    locks: map<Handle, Holder>,                 // tenant locks that are held
    context: map<Handle, Thread>,               // whose scope context a handle carries, if any
    poisoned: set<Handle>,                      // a request body panicked on it
    unflushed: set<Handle>, flushed: set<Handle>,
    pcs: map<Thread, Pc>, closer: Closer, report: Report)

  datatype Action =
    | Arrive(t: Thread, tenant: Tenant)         // the check in `memory_for`
    | FindSlot(t: Thread)                       // `slot_for`, which adds an empty slot at first sight
    | LockSlot(t: Thread)
    | UseSlot(t: Thread, opens: bool)           // the cached handle, or a first open that may fail
    | CheckAgain(t: Thread)
    | LockHandle(t: Thread)
    | CheckLocked(t: Thread)
    | Write(t: Thread)
    | Finish(t: Thread)
    | Panic(t: Thread)
    | HealArrive(t: Thread, tenant: Tenant)
    | HealCheck(t: Thread, resolved: bool)
    | HealOpen(t: Thread, opens: bool)
    | HealCheckAgain(t: Thread)
    | HealSwap(t: Thread)
    | SetClosing
    | Snapshot
    | TakeSlot(tenant: Tenant)
    | CloserLock
    | GiveUp
    | Flush(fails: bool)

  const BLANK := Report({}, {}, {})

  function Start(threads: set<Thread>): State {
    State(false, Cache(map[], map[], 0, {}), map[], map[], {}, {}, {}, map t | t in threads :: Idle, NotStarted, BLANK)
  }

  predicate CloserStep(a: Action) {
    a.SetClosing? || a.Snapshot? || a.TakeSlot? || a.CloserLock? || a.GiveUp? || a.Flush?
  }

  predicate Allowed(s: State, a: Action) {
    && (!CloserStep(a) ==> a.t in s.pcs)
    && match a
       case Arrive(t, _) => s.pcs[t].Idle?
       case FindSlot(t) => s.pcs[t].Admitted?
       case LockSlot(t) => (s.pcs[t].SeekingSlot? || s.pcs[t].HealSeeking?) && s.pcs[t].tenant !in s.cache.slotLocks
       case UseSlot(t, _) => s.pcs[t].InSlot? && s.pcs[t].tenant in s.cache.slots
       case CheckAgain(t) => s.pcs[t].HasHandle?
       case LockHandle(t) => s.pcs[t].SeekingHandle? && s.pcs[t].h !in s.locks
       case CheckLocked(t) => s.pcs[t].Locked?
       case Write(t) => s.pcs[t].Body?
       case Finish(t) => s.pcs[t].Body?
       case Panic(t) => s.pcs[t].Body?
       case HealArrive(t, _) => s.pcs[t].Idle?
       case HealCheck(t, _) => s.pcs[t].HealInSlot?
       case HealOpen(t, _) => s.pcs[t].HealOpening?
       case HealCheckAgain(t) => s.pcs[t].HealOpened?
       case HealSwap(t) => s.pcs[t].HealSwapping?
       case SetClosing => s.closer.NotStarted?
       case Snapshot => s.closer.FlagSet?
       case TakeSlot(tenant) => s.closer.Sweeping? && tenant in s.closer.todo && tenant in s.cache.slots
       case CloserLock => s.closer.Taking? && s.closer.h !in s.locks
       case GiveUp => s.closer.Taking?
       case Flush(_) => s.closer.Flushing?
  }

  function Leave(c: Cache, tenant: Tenant): Cache {
    c.(slotLocks := c.slotLocks - {tenant})
  }

  function WithSlot(c: Cache, tenant: Tenant): Cache {
    if tenant in c.slots then c else c.(slots := c.slots[tenant := None])
  }

  function Occupant(c: Cache, tenant: Tenant): set<Handle> {
    if tenant in c.slots && c.slots[tenant].Some? then {c.slots[tenant].value} else {}
  }

  // The steps before a tenant lock is held, and those of a heal: what they do to the cache, and
  // where they leave their thread.
  predicate SlotStep(a: Action) {
    || a.Arrive? || a.FindSlot? || a.LockSlot? || a.UseSlot? || a.CheckAgain?
    || a.HealArrive? || a.HealCheck? || a.HealOpen? || a.HealCheckAgain? || a.HealSwap?
  }

  function InCache(s: State, a: Action): (Cache, Pc)
    requires Allowed(s, a) && SlotStep(a)
  {
    var p, c := s.pcs[a.t], s.cache;
    match a
    case Arrive(_, tenant) => (c, if s.closing then Idle else Admitted(tenant))
    case FindSlot(_) => (WithSlot(c, p.tenant), SeekingSlot(p.tenant))
    case LockSlot(t) =>
      (c.(slotLocks := c.slotLocks[p.tenant := t]), if p.SeekingSlot? then InSlot(p.tenant) else HealInSlot(p.tenant))
    case UseSlot(_, opens) =>
      if c.slots[p.tenant].Some? then (Leave(c, p.tenant), HasHandle(c.slots[p.tenant].value))
      else if opens then
        var h := Handle(p.tenant, c.handles);
        (Leave(c.(slots := c.slots[p.tenant := Some(h)], handles := c.handles + 1), p.tenant), HasHandle(h))
      else (Leave(c, p.tenant), Idle)
    case CheckAgain(_) => (c, if s.closing then Idle else SeekingHandle(p.h))
    case HealArrive(_, tenant) => (WithSlot(c, tenant), HealSeeking(tenant))
    case HealCheck(_, resolved) =>
      if s.closing || resolved then (Leave(c, p.tenant), Idle) else (c, HealOpening(p.tenant))
    case HealOpen(_, opens) =>
      if opens then (c.(handles := c.handles + 1), HealOpened(p.tenant, Handle(p.tenant, c.handles)))
      else (Leave(c, p.tenant), Idle)
    case HealCheckAgain(_) => if s.closing then (Leave(c, p.tenant), Idle) else (c, HealSwapping(p.tenant, p.h))
    case HealSwap(_) =>
      (Leave(c.(slots := c.slots[p.tenant := Some(p.h)], replaced := c.replaced + Occupant(c, p.tenant)), p.tenant),
        Idle)
  }

  function Next(s: State, a: Action): State
    requires Allowed(s, a)
  {
    if SlotStep(a) then var (c, p) := InCache(s, a); s.(cache := c, pcs := s.pcs[a.t := p])
    else match a
      case LockHandle(t) => var h := s.pcs[t].h; s.(locks := s.locks[h := Request(t)], pcs := s.pcs[t := Locked(h)])
      case CheckLocked(t) =>
        var h := s.pcs[t].h;
        if s.closing then s.(locks := s.locks - {h}, pcs := s.pcs[t := Idle])
        else s.(context := s.context[h := t], pcs := s.pcs[t := Body(h)])
      case Write(t) => s.(unflushed := s.unflushed + {s.pcs[t].h})
      case Finish(t) =>
        var h := s.pcs[t].h;
        s.(context := s.context - {h}, locks := s.locks - {h}, pcs := s.pcs[t := Idle])
      case Panic(t) =>
        var h := s.pcs[t].h;
        s.(poisoned := s.poisoned + {h}, locks := s.locks - {h}, pcs := s.pcs[t := Idle])
      case SetClosing => s.(closing := true, closer := FlagSet)
      case Snapshot => s.(closer := Sweeping(s.cache.slots.Keys))
      case TakeSlot(tenant) =>
        var todo := s.closer.todo - {tenant};
        if tenant in s.cache.slotLocks then
          s.(closer := Sweeping(todo), report := s.report.(opening := s.report.opening + {tenant}))
        else if s.cache.slots[tenant].None? then s.(closer := Sweeping(todo))
        else s.(cache := s.cache.(slots := s.cache.slots[tenant := None]),
          closer := Taking(s.cache.slots[tenant].value, todo))
      case CloserLock => s.(locks := s.locks[s.closer.h := TheCloser], closer := Flushing(s.closer.h, s.closer.todo))
      case GiveUp =>
        s.(closer := Sweeping(s.closer.todo), report := s.report.(busy := s.report.busy + {s.closer.h.tenant}))
      case Flush(fails) =>
        var h, done := s.closer.h, s.(locks := s.locks - {s.closer.h}, closer := Sweeping(s.closer.todo));
        if fails then done.(report := s.report.(failed := s.report.failed + {h.tenant}))
        else done.(flushed := s.flushed + {h}, unflushed := s.unflushed - {h})
  }

  // ---- What every interleaving keeps ----

  // Neither in a body nor on the point of entering one.
  predicate Quiet(p: Pc) {
    !p.Locked? && !p.Body?
  }

  // A tenant lock is held by exactly the thread whose program counter says so.
  ghost predicate LockDiscipline(s: State) {
    && (forall t :: t in s.pcs && !Quiet(s.pcs[t]) ==> s.pcs[t].h in s.locks && s.locks[s.pcs[t].h] == Request(t))
    && (s.closer.Flushing? ==> s.closer.h in s.locks && s.locks[s.closer.h] == TheCloser)
  }

  // The flag goes up before anything is taken or flushed, and never comes down.
  ghost predicate FlagFirst(s: State) {
    (!s.closer.NotStarted? || s.flushed != {}) ==> s.closing
  }

  // No body runs on a flushed handle, and nothing written there is left unflushed.
  ghost predicate Sealed(s: State) {
    && (forall t :: t in s.pcs && s.pcs[t].Body? ==> s.pcs[t].h !in s.flushed)
    && s.flushed !! s.unflushed
  }

  // A body is running on `h`.
  ghost predicate Busy(s: State, h: Handle) {
    h in s.locks && s.locks[h].Request? && s.locks[h].t in s.pcs && s.pcs[s.locks[h].t] == Body(h)
  }

  // A body runs under its own request's context, and a handle between bodies carries nobody's,
  // unless a body panicked on it.
  ghost predicate OwnContext(s: State) {
    && (forall t :: t in s.pcs && s.pcs[t].Body? ==> s.pcs[t].h in s.context && s.context[s.pcs[t].h] == t)
    && (forall h :: h in s.context ==> h in s.poisoned || Busy(s, h))
  }

  ghost predicate Inv(s: State) {
    LockDiscipline(s) && FlagFirst(s) && Sealed(s) && OwnContext(s)
  }

  lemma StartInv(threads: set<Thread>)
    ensures Inv(Start(threads))
  {
  }

  lemma FlagKept(s: State, a: Action)
    requires Inv(s) && Allowed(s, a)
    ensures FlagFirst(Next(s, a)) && (s.closing ==> Next(s, a).closing) && s.flushed <= Next(s, a).flushed
  {
  }

  ghost predicate Aside(s: State, n: State) {
    && n.locks == s.locks && n.context == s.context && n.poisoned == s.poisoned
    && n.flushed == s.flushed && n.unflushed == s.unflushed
    && (n.closer == s.closer || (!n.closer.Flushing? && !s.closer.Flushing?))
    && n.pcs.Keys == s.pcs.Keys
    && (forall t :: t in s.pcs ==> n.pcs[t] == s.pcs[t] || (Quiet(n.pcs[t]) && Quiet(s.pcs[t])))
  }

  lemma SlotAside(s: State, a: Action)
    requires Allowed(s, a) && SlotStep(a)
    ensures Aside(s, Next(s, a))
  {
    assert Quiet(s.pcs[a.t]) && Quiet(InCache(s, a).1);
  }

  lemma CloserAside(s: State, a: Action)
    requires Allowed(s, a) && (a.SetClosing? || a.Snapshot? || a.TakeSlot? || a.GiveUp?)
    ensures Aside(s, Next(s, a))
  {
  }

  lemma AsideKeeps(s: State, n: State)
    requires LockDiscipline(s) && Sealed(s) && OwnContext(s) && Aside(s, n)
    ensures LockDiscipline(n) && Sealed(n) && OwnContext(n)
  {
    assert forall h :: Busy(s, h) ==> Busy(n, h);
  }

  lemma LockKeeps(s: State, a: Action)
    requires Inv(s) && Allowed(s, a) && (a.LockHandle? || a.CloserLock?)
    ensures LockDiscipline(Next(s, a)) && Sealed(Next(s, a)) && OwnContext(Next(s, a))
  {
    assert forall h :: Busy(s, h) ==> Busy(Next(s, a), h);
  }

  lemma WriteKeeps(s: State, a: Action)
    requires Inv(s) && Allowed(s, a) && a.Write?
    ensures LockDiscipline(Next(s, a)) && Sealed(Next(s, a)) && OwnContext(Next(s, a))
  {
    assert forall h :: Busy(s, h) ==> Busy(Next(s, a), h);
  }

  lemma CheckKeeps(s: State, a: Action)
    requires Inv(s) && Allowed(s, a) && a.CheckLocked?
    ensures LockDiscipline(Next(s, a)) && Sealed(Next(s, a)) && OwnContext(Next(s, a))
  {
    var h := s.pcs[a.t].h;
    assert forall u :: u in s.pcs && !Quiet(s.pcs[u]) && s.pcs[u].h == h ==> u == a.t;
    assert forall g :: g != h && Busy(s, g) ==> Busy(Next(s, a), g);
  }

  lemma FinishKeeps(s: State, a: Action)
    requires Inv(s) && Allowed(s, a) && a.Finish?
    ensures LockDiscipline(Next(s, a)) && Sealed(Next(s, a)) && OwnContext(Next(s, a))
  {
    var h := s.pcs[a.t].h;
    assert forall u :: u in s.pcs && !Quiet(s.pcs[u]) && s.pcs[u].h == h ==> u == a.t;
    assert forall g :: g != h && Busy(s, g) ==> Busy(Next(s, a), g);
  }

  lemma PanicKeeps(s: State, a: Action)
    requires Inv(s) && Allowed(s, a) && a.Panic?
    ensures LockDiscipline(Next(s, a)) && Sealed(Next(s, a)) && OwnContext(Next(s, a))
  {
    var h := s.pcs[a.t].h;
    assert forall u :: u in s.pcs && !Quiet(s.pcs[u]) && s.pcs[u].h == h ==> u == a.t;
    assert forall g :: g != h && Busy(s, g) ==> Busy(Next(s, a), g);
  }

  // At the flush the closer holds the lock, so no body is running on the handle.
  lemma FlushKeeps(s: State, a: Action)
    requires Inv(s) && Allowed(s, a) && a.Flush?
    ensures LockDiscipline(Next(s, a)) && Sealed(Next(s, a)) && OwnContext(Next(s, a))
  {
    var h := s.closer.h;
    assert forall u :: u in s.pcs && !Quiet(s.pcs[u]) ==> s.pcs[u].h != h;
    assert forall g :: g != h && Busy(s, g) ==> Busy(Next(s, a), g);
  }

  lemma StepKeeps(s: State, a: Action)
    requires Inv(s) && Allowed(s, a)
    ensures LockDiscipline(Next(s, a)) && Sealed(Next(s, a)) && OwnContext(Next(s, a))
  {
    if SlotStep(a) {
      SlotAside(s, a);
      AsideKeeps(s, Next(s, a));
    } else if a.SetClosing? || a.Snapshot? || a.TakeSlot? || a.GiveUp? {
      CloserAside(s, a);
      AsideKeeps(s, Next(s, a));
    } else if a.LockHandle? || a.CloserLock? {
      LockKeeps(s, a);
    } else if a.Write? {
      WriteKeeps(s, a);
    } else if a.CheckLocked? {
      CheckKeeps(s, a);
    } else if a.Flush? {
      FlushKeeps(s, a);
    } else if a.Finish? {
      FinishKeeps(s, a);
    } else {
      PanicKeeps(s, a);
    }
  }

  lemma InvKept(s: State, a: Action)
    requires Inv(s) && Allowed(s, a)
    ensures Inv(Next(s, a)) && s.flushed <= Next(s, a).flushed
  {
    StepKeeps(s, a);
    FlagKept(s, a);
  }

  // ---- Whole interleavings ----

  ghost predicate AllAllowed(s: State, steps: seq<Action>)
    decreases |steps|
  {
    steps == [] || (Allowed(s, steps[0]) && AllAllowed(Next(s, steps[0]), steps[1..]))
  }

  ghost function Outcome(s: State, steps: seq<Action>): State
    requires AllAllowed(s, steps)
    decreases |steps|
  {
    if steps == [] then s else Outcome(Next(s, steps[0]), steps[1..])
  }

  // The threads that run a body.
  ghost function Running(s: State): set<Thread> {
    set t | t in s.pcs && s.pcs[t].Body?
  }

  // Once the flag is up no body begins: those that run are among those that ran.
  lemma NoBodyBegins(s: State, a: Action)
    requires Allowed(s, a) && s.closing
    ensures Running(Next(s, a)) <= Running(s)
    ensures forall t :: t in Running(Next(s, a)) ==> Next(s, a).pcs[t] == s.pcs[t]
  {
  }

  lemma {:induction false} InvHolds(s: State, steps: seq<Action>)
    requires Inv(s) && AllAllowed(s, steps)
    ensures Inv(Outcome(s, steps)) && s.flushed <= Outcome(s, steps).flushed
    ensures s.closing ==> Outcome(s, steps).closing
    decreases |steps|
  {
    if steps != [] {
      InvKept(s, steps[0]);
      FlagKept(s, steps[0]);
      InvHolds(Next(s, steps[0]), steps[1..]);
    }
  }

  // From any moment after the flag went up, the bodies still running are ones that were running
  // then, on the same handles.
  lemma {:induction false} OnlyStragglers(s: State, steps: seq<Action>)
    requires Inv(s) && s.closing && AllAllowed(s, steps)
    ensures Running(Outcome(s, steps)) <= Running(s)
    ensures forall t :: t in Running(Outcome(s, steps)) ==> Outcome(s, steps).pcs[t] == s.pcs[t]
    decreases |steps|
  {
    if steps != [] {
      var n := Next(s, steps[0]);
      InvKept(s, steps[0]);
      FlagKept(s, steps[0]);
      NoBodyBegins(s, steps[0]);
      OnlyStragglers(n, steps[1..]);
    }
  }

  // In every interleaving from start-up, and however it goes on, a handle the closer has flushed
  // runs no request body again and holds nothing that is not flushed.
  lemma FlushedIsFinal(threads: set<Thread>, before: seq<Action>, after: seq<Action>, h: Handle)
    requires AllAllowed(Start(threads), before)
    requires h in Outcome(Start(threads), before).flushed
    requires AllAllowed(Outcome(Start(threads), before), after)
    ensures var s := Outcome(Outcome(Start(threads), before), after);
      && h in s.flushed && h !in s.unflushed
      && (forall t :: t in s.pcs ==> s.pcs[t] != Body(h))
  {
    StartInv(threads);
    InvHolds(Start(threads), before);
    InvHolds(Outcome(Start(threads), before), after);
  }

  // At most one body runs on a handle at a time, and it runs under its own request's scope
  // context; a handle on which no body ever panicked carries no context between bodies.
  lemma BodiesAreIsolated(threads: set<Thread>, steps: seq<Action>, t: Thread, h: Handle)
    requires AllAllowed(Start(threads), steps)
    ensures var s := Outcome(Start(threads), steps);
      t in s.pcs && s.pcs[t] == Body(h) ==>
        h in s.context && s.context[h] == t && (forall u :: u in s.pcs && s.pcs[u] == Body(h) ==> u == t)
    ensures var s := Outcome(Start(threads), steps);
      h !in s.poisoned && (forall u :: u in s.pcs ==> s.pcs[u] != Body(h)) ==> h !in s.context
  {
    StartInv(threads);
    InvHolds(Start(threads), steps);
  }

  // ---- What a stop leaves unflushed ----

  // Threads that have `h`, or may still write on it.
  predicate Uses(p: Pc, h: Handle) {
    (p.HasHandle? || p.SeekingHandle? || p.Locked? || p.Body?) && p.h == h
  }

  ghost predicate InUse(s: State, h: Handle) {
    h in s.unflushed || exists t :: t in s.pcs && Uses(s.pcs[t], h)
  }

  // Something unflushed is on it, or may still come.
  ghost predicate Dirty(s: State, h: Handle) {
    h in s.unflushed || exists t :: t in s.pcs && s.pcs[t] == Body(h)
  }

  predicate Placed(c: Cache, h: Handle) {
    h.tenant in c.slots && c.slots[h.tenant] == Some(h)
  }

  // Before the stop, a handle in use is in its slot, or was until a heal replaced it.
  predicate Found(s: State, h: Handle) {
    h in s.cache.replaced || Placed(s.cache, h)
  }

  predicate Pending(c: Closer, tenant: Tenant) {
    match c
    case NotStarted => true
    case FlagSet => true
    case Sweeping(todo) => tenant in todo
    case Taking(_, todo) => tenant in todo
    case Flushing(_, todo) => tenant in todo
  }

  predicate Named(r: Report, tenant: Tenant) {
    tenant in r.opening || tenant in r.busy || tenant in r.failed
  }

  // From then on, a dirty handle is still to be taken, is being flushed, is named in the report, or
  // was replaced.
  predicate Covered(s: State, h: Handle) {
    || h in s.cache.replaced || Named(s.report, h.tenant)
    || ((s.closer.Taking? || s.closer.Flushing?) && s.closer.h == h)
    || (Placed(s.cache, h) && Pending(s.closer, h.tenant))
  }

  ghost predicate OwnSlots(c: Cache) {
    forall n :: n in c.slots && c.slots[n].Some? ==> c.slots[n].value.tenant == n
  }

  predicate OwnHandle(p: Pc) {
    p.HealOpened? || p.HealSwapping? ==> p.h.tenant == p.tenant
  }

  // A slot only ever holds its own tenant's handles.
  ghost predicate SlotsOwn(s: State) {
    OwnSlots(s.cache) && forall t :: t in s.pcs ==> OwnHandle(s.pcs[t])
  }

  ghost predicate AllCovered(s: State) {
    if s.closing then forall h :: Dirty(s, h) ==> Covered(s, h) else forall h :: InUse(s, h) ==> Found(s, h)
  }

  ghost predicate Tracked(s: State) {
    Inv(s) && SlotsOwn(s) && AllCovered(s)
  }

  lemma StartTracked(threads: set<Thread>)
    ensures Tracked(Start(threads))
  {
    StartInv(threads);
  }

  lemma OwnInCache(s: State, a: Action)
    requires SlotsOwn(s) && Allowed(s, a) && SlotStep(a)
    ensures OwnSlots(InCache(s, a).0) && OwnHandle(InCache(s, a).1)
  {
    assert OwnHandle(s.pcs[a.t]);
  }

  lemma OwnKept(s: State, a: Action)
    requires SlotsOwn(s) && Allowed(s, a)
    ensures SlotsOwn(Next(s, a))
  {
    if SlotStep(a) {
      OwnInCache(s, a);
      forall t | t in s.pcs ensures OwnHandle(Next(s, a).pcs[t]) { assert OwnHandle(s.pcs[t]); }
    } else {
      forall t | t in s.pcs ensures OwnHandle(Next(s, a).pcs[t]) { assert OwnHandle(s.pcs[t]); }
    }
  }

  lemma FoundStays(s: State, a: Action, h: Handle)
    requires Inv(s) && Allowed(s, a) && !s.closing && Found(s, h)
    ensures Found(Next(s, a), h)
  {
  }

  lemma NewUser(s: State, a: Action, t: Thread, h: Handle)
    requires SlotsOwn(s) && Allowed(s, a) && t in s.pcs && Uses(Next(s, a).pcs[t], h)
    ensures Uses(s.pcs[t], h) || Found(Next(s, a), h)
  {
    assert SlotStep(a) ==> OwnSlots(s.cache);
  }

  lemma NewlyInUse(s: State, a: Action, h: Handle)
    requires SlotsOwn(s) && Allowed(s, a) && InUse(Next(s, a), h)
    ensures InUse(s, h) || Found(Next(s, a), h)
  {
    var n := Next(s, a);
    if h in n.unflushed {
      if h !in s.unflushed { assert Uses(s.pcs[a.t], h); }
    } else {
      var t :| t in n.pcs && Uses(n.pcs[t], h);
      NewUser(s, a, t, h);
    }
  }

  lemma NoNewDirt(s: State, a: Action, h: Handle)
    requires Allowed(s, a) && s.closing && Dirty(Next(s, a), h)
    ensures Dirty(s, h)
  {
    var n := Next(s, a);
    if h !in n.unflushed {
      var t :| t in n.pcs && n.pcs[t] == Body(h);
      assert s.pcs[t] == Body(h);
    }
  }

  lemma FlushedIsClean(s: State, a: Action, h: Handle)
    requires Inv(s) && Allowed(s, a) && a == Flush(false) && Dirty(Next(s, a), h)
    ensures h != s.closer.h
  {
    assert forall t :: t in s.pcs && !Quiet(s.pcs[t]) ==> s.pcs[t].h != s.closer.h;
  }

  lemma PlacedStays(s: State, a: Action, h: Handle)
    requires Allowed(s, a) && SlotStep(a) && Placed(s.cache, h)
    ensures Found(Next(s, a), h)
  {
  }

  lemma CoveredBySweep(s: State, a: Action, h: Handle)
    requires Allowed(s, a) && CloserStep(a) && s.closing && Covered(s, h) && (a == Flush(false) ==> h != s.closer.h)
    ensures Covered(Next(s, a), h)
  {
  }

  lemma CoveredStays(s: State, a: Action, h: Handle)
    requires Inv(s) && Allowed(s, a) && s.closing && Covered(s, h) && Dirty(Next(s, a), h)
    ensures Covered(Next(s, a), h)
  {
    if CloserStep(a) {
      if a == Flush(false) { FlushedIsClean(s, a, h); }
      CoveredBySweep(s, a, h);
    } else if SlotStep(a) {
      if Placed(s.cache, h) { PlacedStays(s, a, h); }
    }
  }

  lemma CoveredAtStop(s: State, a: Action, h: Handle)
    requires Allowed(s, a) && a.SetClosing? && (InUse(s, h) ==> Found(s, h)) && Dirty(Next(s, a), h)
    ensures Covered(Next(s, a), h)
  {
  }

  lemma TrackedKept(s: State, a: Action)
    requires Tracked(s) && Allowed(s, a)
    ensures Tracked(Next(s, a))
  {
    InvKept(s, a);
    OwnKept(s, a);
    var n := Next(s, a);
    if s.closing {
      FlagKept(s, a);
      forall h | Dirty(n, h) ensures Covered(n, h) {
        NoNewDirt(s, a, h);
        CoveredStays(s, a, h);
      }
    } else if n.closing {
      forall h | Dirty(n, h) ensures Covered(n, h) { CoveredAtStop(s, a, h); }
    } else {
      forall h | InUse(n, h) ensures Found(n, h) {
        NewlyInUse(s, a, h);
        if InUse(s, h) { FoundStays(s, a, h); }
      }
    }
  }

  lemma {:induction false} TrackedHolds(s: State, steps: seq<Action>)
    requires Tracked(s) && AllAllowed(s, steps)
    ensures Tracked(Outcome(s, steps))
    decreases |steps|
  {
    if steps != [] {
      TrackedKept(s, steps[0]);
      TrackedHolds(Next(s, steps[0]), steps[1..]);
    }
  }

  // When the sweep has ended, whatever is unflushed or may still be written lies on a handle that a
  // heal replaced, or belongs to a tenant the report names.
  lemma NothingLeftOut(threads: set<Thread>, steps: seq<Action>, h: Handle)
    requires AllAllowed(Start(threads), steps) && Outcome(Start(threads), steps).closer == Sweeping({})
    requires Dirty(Outcome(Start(threads), steps), h)
    ensures var s := Outcome(Start(threads), steps); h in s.cache.replaced || Named(s.report, h.tenant)
  {
    StartTracked(threads);
    TrackedHolds(Start(threads), steps);
  }

  predicate Leads(s: State, a: Action, n: State) {
    Allowed(s, a) && Next(s, a) == n
  }

  lemma OneMore(s: State, a: Action, n: State, rest: seq<Action>) returns (steps: seq<Action>)
    requires Leads(s, a, n) && AllAllowed(n, rest)
    ensures AllAllowed(s, steps) && Outcome(s, steps) == Outcome(n, rest)
  {
    steps := [a] + rest;
    assert steps[1..] == rest;
  }

  const FIRST := Handle(7, 0)

  // Thread 0 is at `p` for tenant 7, whose slot holds `slot` (or is not there yet), before the stop.
  function Serving(p: Pc, slot: Option<Option<Handle>>): State {
    State(false,
      Cache(if slot.Some? then map[7 := slot.value] else map[], if p.InSlot? then map[7 := 0] else map[],
        if slot == Some(Some(FIRST)) then 1 else 0, {}),
      map[], map[], {}, {}, {}, map[0 := p], NotStarted, BLANK)
  }

  // Thread 0 has the first handle and is at `p`; the closer is at `c`.
  function Stopping(p: Pc, slot: Option<Handle>, c: Closer, locks: map<Handle, Holder>, flushed: set<Handle>): State {
    State(true, Cache(map[7 := slot], map[], 1, {}), locks, map[], {}, {}, flushed, map[0 := p], c, BLANK)
  }

  lemma Finds()
    ensures Leads(Start({0}), Arrive(0, 7), Serving(Admitted(7), None))
    ensures Leads(Serving(Admitted(7), None), FindSlot(0), Serving(SeekingSlot(7), Some(None)))
  {
    assert Start({0}).pcs[0 := Admitted(7)] == map[0 := Admitted(7)];
    assert map[0 := Admitted(7)][0 := SeekingSlot(7)] == map[0 := SeekingSlot(7)];
  }

  lemma Opens()
    ensures Leads(Serving(SeekingSlot(7), Some(None)), LockSlot(0), Serving(InSlot(7), Some(None)))
    ensures Leads(Serving(InSlot(7), Some(None)), UseSlot(0, true), Serving(HasHandle(FIRST), Some(Some(FIRST))))
    ensures Leads(Serving(HasHandle(FIRST), Some(Some(FIRST))), CheckAgain(0),
      Serving(SeekingHandle(FIRST), Some(Some(FIRST))))
  {
    assert map[0 := SeekingSlot(7)][0 := InSlot(7)] == map[0 := InSlot(7)];
    assert map[0 := InSlot(7)][0 := HasHandle(FIRST)] == map[0 := HasHandle(FIRST)];
    assert map[0 := HasHandle(FIRST)][0 := SeekingHandle(FIRST)] == map[0 := SeekingHandle(FIRST)];
    assert map[7 := None][7 := Some(FIRST)] == map[7 := Some(FIRST)];
    assert map[7 := 0] - {7} == map[];
  }

  lemma Sweeps()
    ensures Leads(Serving(SeekingHandle(FIRST), Some(Some(FIRST))), SetClosing,
      Stopping(SeekingHandle(FIRST), Some(FIRST), FlagSet, map[], {}))
    ensures Leads(Stopping(SeekingHandle(FIRST), Some(FIRST), FlagSet, map[], {}), Snapshot,
      Stopping(SeekingHandle(FIRST), Some(FIRST), Sweeping({7}), map[], {}))
  {
    var tenants: set<Tenant> := {7};
    assert map[7 := Some(FIRST)].Keys == tenants;
  }

  lemma Takes()
    ensures Leads(Stopping(SeekingHandle(FIRST), Some(FIRST), Sweeping({7}), map[], {}), TakeSlot(7),
      Stopping(SeekingHandle(FIRST), None, Taking(FIRST, {}), map[], {}))
    ensures Leads(Stopping(SeekingHandle(FIRST), None, Taking(FIRST, {}), map[], {}), CloserLock,
      Stopping(SeekingHandle(FIRST), None, Flushing(FIRST, {}), map[FIRST := TheCloser], {}))
  {
    var tenants: set<Tenant> := {7};
    assert tenants - {7} == {};
    assert map[7 := Some(FIRST)][7 := None] == map[7 := None];
  }

  lemma Flushes()
    ensures Leads(Stopping(SeekingHandle(FIRST), None, Flushing(FIRST, {}), map[FIRST := TheCloser], {}), Flush(false),
      Stopping(SeekingHandle(FIRST), None, Sweeping({}), map[], {FIRST}))
    ensures Leads(Stopping(SeekingHandle(FIRST), None, Sweeping({}), map[], {FIRST}), LockHandle(0),
      Stopping(Locked(FIRST), None, Sweeping({}), map[FIRST := Request(0)], {FIRST}))
  {
    var none: set<Handle> := {};
    assert map[FIRST := TheCloser] - {FIRST} == map[] && none + {FIRST} == {FIRST} && none - {FIRST} == none;
    assert map[0 := SeekingHandle(FIRST)][0 := Locked(FIRST)] == map[0 := Locked(FIRST)];
  }

  lemma StopInTime() returns (steps: seq<Action>)
    ensures AllAllowed(Serving(SeekingHandle(FIRST), Some(Some(FIRST))), steps)
    ensures Outcome(Serving(SeekingHandle(FIRST), Some(Some(FIRST))), steps)
      == Stopping(Locked(FIRST), None, Sweeping({}), map[FIRST := Request(0)], {FIRST})
  {
    Sweeps();
    Takes();
    Flushes();
    steps := OneMore(Stopping(SeekingHandle(FIRST), None, Sweeping({}), map[], {FIRST}), LockHandle(0),
      Stopping(Locked(FIRST), None, Sweeping({}), map[FIRST := Request(0)], {FIRST}), []);
    steps := OneMore(Stopping(SeekingHandle(FIRST), None, Flushing(FIRST, {}), map[FIRST := TheCloser], {}),
      Flush(false), Stopping(SeekingHandle(FIRST), None, Sweeping({}), map[], {FIRST}), steps);
    steps := OneMore(Stopping(SeekingHandle(FIRST), None, Taking(FIRST, {}), map[], {}), CloserLock,
      Stopping(SeekingHandle(FIRST), None, Flushing(FIRST, {}), map[FIRST := TheCloser], {}), steps);
    steps := OneMore(Stopping(SeekingHandle(FIRST), Some(FIRST), Sweeping({7}), map[], {}), TakeSlot(7),
      Stopping(SeekingHandle(FIRST), None, Taking(FIRST, {}), map[], {}), steps);
    steps := OneMore(Stopping(SeekingHandle(FIRST), Some(FIRST), FlagSet, map[], {}), Snapshot,
      Stopping(SeekingHandle(FIRST), Some(FIRST), Sweeping({7}), map[], {}), steps);
    steps := OneMore(Serving(SeekingHandle(FIRST), Some(Some(FIRST))), SetClosing,
      Stopping(SeekingHandle(FIRST), Some(FIRST), FlagSet, map[], {}), steps);
  }

  // The second look at the flag under the tenant lock is what keeps the promise: a request can
  // come to hold the lock of a handle that is already flushed, about to enter its body.
  lemma RecheckMatters() returns (steps: seq<Action>)
    ensures AllAllowed(Start({0}), steps)
    ensures var s := Outcome(Start({0}), steps); 0 in s.pcs && s.pcs[0] == Locked(FIRST) && FIRST in s.flushed
  {
    steps := StopInTime();
    Finds();
    Opens();
    steps := OneMore(Serving(HasHandle(FIRST), Some(Some(FIRST))), CheckAgain(0),
      Serving(SeekingHandle(FIRST), Some(Some(FIRST))), steps);
    steps := OneMore(Serving(InSlot(7), Some(None)), UseSlot(0, true), Serving(HasHandle(FIRST), Some(Some(FIRST))),
      steps);
    steps := OneMore(Serving(SeekingSlot(7), Some(None)), LockSlot(0), Serving(InSlot(7), Some(None)), steps);
    steps := OneMore(Serving(Admitted(7), None), FindSlot(0), Serving(SeekingSlot(7), Some(None)), steps);
    steps := OneMore(Start({0}), Arrive(0, 7), Serving(Admitted(7), None), steps);
  }
}
