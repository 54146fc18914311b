// Several connections to one database file, each running its writes a statement at a time. A
// transaction takes the write lock when it begins (BEGIN IMMEDIATE), so whatever the
// interleaving, the committed tables go through the states of a sequential run of writes.
module Connections {
  import opened Records
  import opened Timeline
  import opened Runs
  import opened Store

  // A connection in one of its writes: a put, a forget or an invalidate.
  datatype Conn =
    | Idle
    | Clocked(w: Write, now: Ms)                // has read the clock, not begun
    | Begun(w: Write, now: Ms)                  // holds the write lock
    // has fetched the rows and edited k of them, touching some
    | Editing(w: Write, now: Ms, rows: seq<(nat, Entry)>, k: nat, touched: nat)
    | Finished(w: Write, now: Ms, ids: seq<nat>) // everything written, not committed

  // `work` is what the lock holder has written and no other connection sees.
  datatype Database = Database(committed: Tables, writer: Option<nat>, work: Tables, conns: map<nat, Conn>)

  datatype Action =
    | ReadClock(c: nat, w: Write, now: Ms)
    | Begin(c: nat)
    | Fetch(c: nat, rows: seq<(nat, Entry)>)
    | EditRow(c: nat)
    | Conclude(c: nat)              // the new version of a put, the cascade of the others
    | Commit(c: nat)
    | Abort(c: nat)
    | Single(c: nat, ev: Event)     // link, unlink and prune are one statement each

  predicate InTransaction(p: Conn) {
    p.Begun? || p.Editing? || p.Finished?
  }

  predicate OneStatement(w: Write) {
    w.Link? || w.Unlink? || w.Prune?
  }

  ghost predicate Allowed(s: Database, a: Action) {
    && a.c in s.conns
    && var p := s.conns[a.c];
      match a
      case ReadClock(_, w, _) => p.Idle? && Edits(w)
      case Begin(_) => p.Clocked? && s.writer.None?
      case Fetch(_, rows) =>
        p.Begun? && Edits(p.w) && Listing(s.work.log, SelectionOf(p.w), RowIds(rows)) && Fetched(s.work.log, rows)
      case EditRow(_) => p.Editing? && Edits(p.w) && p.k < |p.rows| && p.rows[p.k].0 < |s.work.log|
      case Conclude(_) => p.Editing? && Edits(p.w) && p.k == |p.rows|
      case Commit(_) => p.Finished?
      case Abort(_) => InTransaction(p)
      case Single(_, ev) => p.Idle? && s.writer.None? && OneStatement(ev.write)
  }

  function Edited(work: seq<Entry>, id: nat, r: Entry, ed: Edit, now: Ms): seq<Entry>
    requires id < |work|
  {
    if Touches(ed, r) then work[id := Closed(work[id], now)] + InsertedAll(Kept(ed, r), now) else work
  }

  function Concluded(work: Tables, w: Write, now: Ms, touched: nat): Tables
    requires Edits(w)
  {
    if w.Put? then Tables(work.log + [Inserted(w.e, now)], work.edges)
    else if touched > 0 && !Live(work.log, w.uri) then Tables(work.log, Detached(work.edges, w.uri))
    else work
  }

  ghost function Next(s: Database, a: Action): Database
    requires Allowed(s, a)
  {
    var p := s.conns[a.c];
    match a
    case ReadClock(c, w, now) => s.(conns := s.conns[c := Clocked(w, now)])
    case Begin(c) => s.(writer := Some(c), work := s.committed, conns := s.conns[c := Begun(p.w, p.now)])
    case Fetch(c, rows) =>
      var next := if p.w.Put? && Already(s.work.log, p.w.e) then Finished(p.w, p.now, RowIds(rows))
        else Editing(p.w, p.now, rows, 0, 0);
      s.(conns := s.conns[c := next])
    case EditRow(c) =>
      var (id, r) := p.rows[p.k];
      var touched := p.touched + if Touches(EditOf(p.w), r) then 1 else 0;
      s.(work := s.work.(log := Edited(s.work.log, id, r, EditOf(p.w), p.now)),
        conns := s.conns[c := p.(k := p.k + 1, touched := touched)])
    case Conclude(c) =>
      s.(work := Concluded(s.work, p.w, p.now, p.touched), conns := s.conns[c := Finished(p.w, p.now, RowIds(p.rows))])
    case Commit(c) => s.(committed := s.work, writer := None, conns := s.conns[c := Idle])
    case Abort(c) => s.(writer := None, conns := s.conns[c := Idle])
    case Single(c, ev) => s.(committed := Apply(s.committed, ev))
  }

  // How far the lock holder has got: always a prefix of its own write on the committed tables.
  ghost predicate HalfDone(s: Database, w: Write, now: Ms, rows: seq<(nat, Entry)>, k: nat, touched: nat) {
    && Edits(w) && Listing(s.committed.log, SelectionOf(w), RowIds(rows)) && Fetched(s.committed.log, rows)
    && (w.Put? ==> !Already(s.committed.log, w.e)) && k <= |rows| && s.work.edges == s.committed.edges
    && s.work.log == Rewrite(s.committed.log, RowIds(rows)[..k], EditOf(w), now)
    && touched == TouchCount(s.committed.log, RowIds(rows)[..k], EditOf(w))
  }

  ghost predicate Done(s: Database, w: Write, now: Ms, ids: seq<nat>) {
    Edits(w) && Enabled(s.committed, Event(w, now, ids)) && s.work == Apply(s.committed, Event(w, now, ids))
  }

  ghost predicate OnCourse(s: Database, p: Conn) {
    match p
    case Idle => true
    case Clocked(w, _) => Edits(w)
    case Begun(w, _) => Edits(w) && s.work == s.committed
    case Editing(w, now, rows, k, touched) => HalfDone(s, w, now, rows, k, touched)
    case Finished(w, now, ids) => Done(s, w, now, ids)
  }

  ghost predicate Inv(s: Database) {
    && (s.writer.Some? ==> s.writer.value in s.conns)
    && (forall c :: c in s.conns ==> (InTransaction(s.conns[c]) <==> s.writer == Some(c)))
    && (forall c :: c in s.conns ==> OnCourse(s, s.conns[c]))
  }

  lemma NothingVisited(log: seq<Entry>, ed: Edit, now: Ms)
    ensures Rewrite(log, [], ed, now) == log
  {
  }

  lemma FetchOnCourse(s: Database, a: Action)
    requires Inv(s) && a.Fetch? && Allowed(s, a)
    ensures OnCourse(Next(s, a), Next(s, a).conns[a.c])
  {
    var p := s.conns[a.c];
    assert OnCourse(s, p);
    NothingVisited(s.committed.log, EditOf(p.w), p.now);
    assert RowIds(a.rows)[..0] == [];
  }

  lemma EditedTouched(log: seq<Entry>, ids: seq<nat>, id: nat, ed: Edit, now: Ms)
    requires id < |log| && id !in ids && Touches(ed, log[id])
    ensures id < |Rewrite(log, ids, ed, now)|
    ensures Edited(Rewrite(log, ids, ed, now), id, ReadBack(log[id]), ed, now) == Rewrite(log, ids + [id], ed, now)
  {
    VisitTouched(log, ids, ed, now, id);
    NotYetVisited(log, ids, ed, now, id);
    KeptReadBack(ed, log[id]);
  }

  lemma EditedUntouched(log: seq<Entry>, ids: seq<nat>, id: nat, ed: Edit, now: Ms)
    requires id < |log| && !Touches(ed, log[id])
    ensures id < |Rewrite(log, ids, ed, now)|
    ensures Edited(Rewrite(log, ids, ed, now), id, ReadBack(log[id]), ed, now) == Rewrite(log, ids + [id], ed, now)
  {
    VisitUntouched(log, ids, ed, now, id);
  }

  lemma EditOnCourse(s: Database, a: Action)
    requires Inv(s) && a.EditRow? && Allowed(s, a)
    ensures OnCourse(Next(s, a), Next(s, a).conns[a.c])
  {
    var p := s.conns[a.c];
    assert OnCourse(s, p);
    var log, ed, all := s.committed.log, EditOf(p.w), RowIds(p.rows);
    var id := p.rows[p.k].0;
    NextVisit(log, p.rows, p.k);
    assert all[..p.k + 1][..p.k] == all[..p.k];
    if Touches(ed, log[id]) {
      EditedTouched(log, all[..p.k], id, ed, p.now);
    } else {
      EditedUntouched(log, all[..p.k], id, ed, p.now);
    }
  }

  lemma ConcludeOnCourse(s: Database, a: Action)
    requires Inv(s) && a.Conclude? && Allowed(s, a)
    ensures OnCourse(Next(s, a), Next(s, a).conns[a.c])
  {
    var p := s.conns[a.c];
    assert OnCourse(s, p);
    var ids := RowIds(p.rows);
    assert ids[..|p.rows|] == ids;
    AnyTouched(s.committed.log, ids, EditOf(p.w));
  }

  lemma ActorOnCourse(s: Database, a: Action)
    requires Inv(s) && Allowed(s, a)
    ensures OnCourse(Next(s, a), Next(s, a).conns[a.c])
  {
    if a.Fetch? {
      FetchOnCourse(s, a);
    } else if a.EditRow? {
      EditOnCourse(s, a);
    } else if a.Conclude? {
      ConcludeOnCourse(s, a);
    }
  }

  // The others are not in a transaction, so nothing the actor does concerns them.
  lemma OthersOnCourse(s: Database, a: Action, c: nat)
    requires Inv(s) && Allowed(s, a) && c in s.conns && c != a.c
    ensures Next(s, a).conns[c] == s.conns[c] && OnCourse(Next(s, a), s.conns[c])
  {
    assert OnCourse(s, s.conns[c]);
    assert InTransaction(s.conns[a.c]) <==> s.writer == Some(a.c);
    assert InTransaction(s.conns[c]) <==> s.writer == Some(c);
  }

  lemma LockKept(s: Database, a: Action)
    requires Inv(s) && Allowed(s, a)
    ensures var n := Next(s, a);
      && n.conns.Keys == s.conns.Keys && (n.writer.Some? ==> n.writer.value in n.conns)
      && forall c :: c in n.conns ==> (InTransaction(n.conns[c]) <==> n.writer == Some(c))
  {
    assert InTransaction(s.conns[a.c]) <==> s.writer == Some(a.c);
  }

  lemma InvKept(s: Database, a: Action)
    requires Inv(s) && Allowed(s, a)
    ensures Inv(Next(s, a))
  {
    LockKept(s, a);
    ActorOnCourse(s, a);
    forall c | c in s.conns && c != a.c ensures OnCourse(Next(s, a), Next(s, a).conns[c]) { OthersOnCourse(s, a, c); }
  }

  // A step either leaves the committed tables alone or performs one whole write on them.
  lemma StepIsWrite(s: Database, a: Action) returns (evs: seq<Event>)
    requires Inv(s) && Allowed(s, a)
    ensures |evs| <= 1
    ensures if evs == [] then Next(s, a).committed == s.committed
      else Enabled(s.committed, evs[0]) && Next(s, a).committed == Apply(s.committed, evs[0])
  {
    evs := [];
    if a.Commit? {
      var p := s.conns[a.c];
      assert OnCourse(s, p);
      evs := [Event(p.w, p.now, p.ids)];
    } else if a.Single? {
      evs := [a.ev];
    }
  }

  // ---- Whole interleavings ----

  ghost predicate AllAllowed(s: Database, steps: seq<Action>)
    decreases |steps|
  {
    steps == [] || (Allowed(s, steps[0]) && AllAllowed(Next(s, steps[0]), steps[1..]))
  }

  ghost function Outcome(s: Database, steps: seq<Action>): Database
    requires AllAllowed(s, steps)
    decreases |steps|
  {
    if steps == [] then s else Outcome(Next(s, steps[0]), steps[1..])
  }

  // Every interleaving commits what some sequential run of writes would, in commit order. (The
  // stamps are those read before each transaction began, so they may come in any order.)
  lemma {:induction false} InterleavingIsRun(s: Database, steps: seq<Action>) returns (evs: seq<Event>)
    requires Inv(s) && AllAllowed(s, steps)
    ensures Legal(s.committed, evs) && Run(s.committed, evs) == Outcome(s, steps).committed
    decreases |steps|
  {
    if steps == [] {
      evs := [];
    } else {
      var n := Next(s, steps[0]);
      InvKept(s, steps[0]);
      var first := StepIsWrite(s, steps[0]);
      var rest := InterleavingIsRun(n, steps[1..]);
      evs := first + rest;
      if first == [] {
        assert evs == rest;
      } else {
        assert evs[0] == first[0] && evs[1..] == rest;
      }
    }
  }

  // Tables nobody writes yet.
  function Start(tables: Tables, conns: set<nat>): Database {
    Database(tables, None, tables, map c | c in conns :: Idle)
  }

  // So whatever the connections do, in whatever order, from a table whose open segments are
  // disjoint: they are disjoint after every commit.
  lemma CommittedDisjoint(tables: Tables, conns: set<nat>, steps: seq<Action>)
    requires AllAllowed(Start(tables, conns), steps) && Disjoint(tables.log)
    ensures Disjoint(Outcome(Start(tables, conns), steps).committed.log)
  {
    var evs := InterleavingIsRun(Start(tables, conns), steps);
    RunDisjoint(tables, evs);
  }
}
