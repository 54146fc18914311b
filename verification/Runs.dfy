// Sequences of writes: what every run keeps, in which the system-time axis matters.
module Runs {
  import opened Records
  import opened Timeline
  import opened Beliefs

  // ---- Writes as transitions ----

  datatype Tables = Tables(log: seq<Entry>, edges: set<Edge>)

  datatype Write =
    | Put(e: Entry)
    | Forget(uri: string, within: Option<string>)
    | Invalidate(uri: string, cut: Ms, within: Option<string>)
    | Link(edge: Edge)
    | Unlink(edge: Edge)
    | Prune

  // A committed write: the clock it read before its transaction began, and the order in which
  // it visited the rows it selected.
  datatype Event = Event(write: Write, now: Ms, ids: seq<nat>)

  // Refused before anything is read or written.
  predicate Rejected(w: Write) {
    (w.Put? && !ValidInterval(w.e)) || (w.Invalidate? && w.cut <= 0)
  }

  predicate Edits(w: Write) {
    (w.Put? || w.Forget? || w.Invalidate?) && !Rejected(w)
  }

  function SelectionOf(w: Write): Selection
    requires Edits(w)
  {
    if w.Put? then RecordOf(w.e) else OfUri(w.uri, w.within)
  }

  function EditOf(w: Write): Edit
    requires Edits(w)
  {
    match w
    case Put(e) => Assert(e)
    case Forget(_, _) => Retract
    case Invalidate(_, cut, _) => Truncate(cut)
  }

  ghost predicate Enabled(s: Tables, ev: Event) {
    Edits(ev.write) ==> Listing(s.log, SelectionOf(ev.write), ev.ids)
  }

  function LogAfter(log: seq<Entry>, ev: Event): seq<Entry> {
    if !Edits(ev.write) then log
    else if ev.write.Put? then PutLog(log, ev.ids, ev.write.e, ev.now)
    else Rewrite(log, ev.ids, EditOf(ev.write), ev.now)
  }

  // A uri is live while any audience holds an open row of it.
  predicate Live(log: seq<Entry>, uri: string) {
    exists i :: 0 <= i < |log| && Open(log[i]) && log[i].uri == uri
  }

  function Detached(edges: set<Edge>, uri: string): set<Edge> {
    set e | e in edges && e.fromUri != uri && e.toUri != uri
  }

  predicate LiveEdge(log: seq<Entry>, e: Edge) {
    Live(log, e.fromUri) && Live(log, e.toUri)
  }

  predicate TouchesAny(log: seq<Entry>, ids: seq<nat>, ed: Edit) {
    exists i :: i in ids && i < |log| && Touches(ed, log[i])
  }

  function EdgesAfter(s: Tables, ev: Event): set<Edge> {
    match ev.write
    case Put(_) => s.edges
    case Link(e) => s.edges + {e}
    case Unlink(e) => s.edges - {e}
    case Prune => set e | e in s.edges && LiveEdge(s.log, e)
    case _ =>
      if Edits(ev.write) && TouchesAny(s.log, ev.ids, EditOf(ev.write)) && !Live(LogAfter(s.log, ev), ev.write.uri)
      then Detached(s.edges, ev.write.uri) else s.edges
  }

  function Apply(s: Tables, ev: Event): Tables {
    Tables(LogAfter(s.log, ev), EdgesAfter(s, ev))
  }

  function Run(s: Tables, evs: seq<Event>): Tables
    decreases |evs|
  {
    if evs == [] then s else Run(Apply(s, evs[0]), evs[1..])
  }

  ghost predicate Legal(s: Tables, evs: seq<Event>)
    decreases |evs|
  {
    evs == [] || (Enabled(s, evs[0]) && Legal(Apply(s, evs[0]), evs[1..]))
  }

  // ---- One step in system time ----

  // Rows are never removed; the only change to a row is that an open one is closed, at the
  // stamp of the write; every new row is open and recorded at that stamp.
  ghost predicate Stamped(log: seq<Entry>, after: seq<Entry>, now: Ms) {
    && |log| <= |after|
    && (forall i :: 0 <= i < |log| ==> after[i] == log[i] || (Open(log[i]) && after[i] == Closed(log[i], now)))
    && (forall j :: |log| <= j < |after| ==> Open(after[j]) && after[j].systemFrom == now)
  }

  lemma RewriteStamped(log: seq<Entry>, ids: seq<nat>, ed: Edit, now: Ms)
    requires AllOpen(log, ids)
    ensures Stamped(log, Rewrite(log, ids, ed, now), now)
  {
    PiecesOpen(log, ids, ed, now);
    var after := Rewrite(log, ids, ed, now);
    forall j | |log| <= j < |after| ensures Open(after[j]) && after[j].systemFrom == now {
      assert after[j] in Pieces(log, ids, ed, now);
    }
  }

  lemma StepStamped(s: Tables, ev: Event)
    requires Enabled(s, ev)
    ensures Stamped(s.log, LogAfter(s.log, ev), ev.now)
  {
    if Edits(ev.write) {
      RewriteStamped(s.log, ev.ids, EditOf(ev.write), ev.now);
    }
  }

  lemma StepDisjoint(s: Tables, ev: Event)
    requires Enabled(s, ev) && Disjoint(s.log)
    ensures Disjoint(Apply(s, ev).log)
  {
    if Edits(ev.write) {
      if ev.write.Put? {
        PutDisjoint(s.log, ev.ids, ev.write.e, ev.now);
      } else {
        RewriteDisjoint(s.log, ev.ids, EditOf(ev.write), ev.now);
      }
    }
  }

  // The rows an as-of query looks at: believed at `asOf`, for a fact valid at `v`.
  predicate InSlice(r: Entry, asOf: Ms, v: Ms) {
    Believed(r, asOf) && Covers(r, v)
  }

  ghost function SliceRows(log: seq<Entry>, asOf: Ms, v: Ms): set<nat> {
    set i: nat | i < |log| && InSlice(log[i], asOf, v)
  }

  // A write leaves every slice before its own stamp as it was, whatever the clock did before.
  lemma StepFreezesPast(log: seq<Entry>, after: seq<Entry>, now: Ms, asOf: Ms, v: Ms)
    requires Stamped(log, after, now) && asOf < now
    ensures SliceRows(after, asOf, v) == SliceRows(log, asOf, v)
  {
    assert forall i :: 0 <= i < |log| ==> InSlice(after[i], asOf, v) == InSlice(log[i], asOf, v);
    assert forall j :: |log| <= j < |after| ==> !InSlice(after[j], asOf, v);
  }

  // ---- Every run ----

  // The open segments of every record stay disjoint in every run, even under a clock that
  // jumps back and forth.
  lemma {:induction false} RunDisjoint(s: Tables, evs: seq<Event>)
    requires Legal(s, evs) && Disjoint(s.log)
    ensures Disjoint(Run(s, evs).log)
    decreases |evs|
  {
    if evs != [] {
      StepDisjoint(s, evs[0]);
      RunDisjoint(Apply(s, evs[0]), evs[1..]);
    }
  }

  // Rows keep their place and their contents for ever; `systemTo` is set at most once.
  ghost predicate Extends(log: seq<Entry>, after: seq<Entry>) {
    && |log| <= |after|
    && forall i :: 0 <= i < |log| ==>
      after[i] == log[i] || (Open(log[i]) && !Open(after[i]) && after[i] == log[i].(systemTo := after[i].systemTo))
  }

  lemma ExtendsTransitive(a: seq<Entry>, b: seq<Entry>, c: seq<Entry>)
    requires Extends(a, b) && Extends(b, c)
    ensures Extends(a, c)
  {
    forall i | 0 <= i < |a|
      ensures c[i] == a[i] || (Open(a[i]) && !Open(c[i]) && c[i] == a[i].(systemTo := c[i].systemTo))
    {
      assert b[i] == a[i] || c[i] == b[i];
    }
  }

  lemma {:induction false} RunExtends(s: Tables, evs: seq<Event>)
    requires Legal(s, evs)
    ensures Extends(s.log, Run(s, evs).log)
    decreases |evs|
  {
    if evs != [] {
      StepStamped(s, evs[0]);
      RunExtends(Apply(s, evs[0]), evs[1..]);
      ExtendsTransitive(s.log, Apply(s, evs[0]).log, Run(s, evs).log);
    }
  }

  // No run of writes stamped after `asOf` changes what was recorded as of then.
  lemma {:induction false} RunFreezesPast(s: Tables, evs: seq<Event>, asOf: Ms, v: Ms)
    requires Legal(s, evs) && forall k :: 0 <= k < |evs| ==> asOf < evs[k].now
    ensures SliceRows(Run(s, evs).log, asOf, v) == SliceRows(s.log, asOf, v)
    decreases |evs|
  {
    if evs != [] {
      StepStamped(s, evs[0]);
      StepFreezesPast(s.log, Apply(s, evs[0]).log, evs[0].now, asOf, v);
      RunFreezesPast(Apply(s, evs[0]), evs[1..], asOf, v);
    }
  }

  // ---- Which clocks keep slices unique ----

  // At most one row per record is believed at any as-of point.
  ghost predicate SliceUnique(log: seq<Entry>, asOf: Ms, v: Ms) {
    forall i, j :: 0 <= i < j < |log| && InSlice(log[i], asOf, v) && InSlice(log[j], asOf, v)
      ==> !SameRecord(log[i], log[j])
  }

  lemma DisjointCoversOnce(log: seq<Entry>, v: Ms, i: nat, j: nat)
    requires Disjoint(log) && ExactLog(log, v) && i < j < |log|
    requires Open(log[i]) && Open(log[j]) && Covers(log[i], v) && Covers(log[j], v)
    ensures !SameRecord(log[i], log[j])
  {
  }

  // No row was recorded before `lo`, and every closed row was closed by `last`, unless it was
  // never believed at all.
  ghost predicate Settled(log: seq<Entry>, lo: Ms, last: Ms) {
    forall i :: 0 <= i < |log| ==>
      lo <= log[i].systemFrom
        && (Open(log[i]) || log[i].systemTo.value <= log[i].systemFrom || log[i].systemTo.value <= last)
  }

  lemma StepSettled(log: seq<Entry>, after: seq<Entry>, lo: Ms, last: Ms, now: Ms)
    requires Stamped(log, after, now) && Settled(log, lo, last) && lo <= last && (now < last ==> lo == last)
    ensures Settled(after, Earlier(lo, now), now)
  {
  }

  lemma StepSliceUnique(log: seq<Entry>, after: seq<Entry>, lo: Ms, last: Ms, now: Ms, asOf: Ms, v: Ms)
    requires Stamped(log, after, now) && Settled(log, lo, last) && lo <= last && (now < last ==> lo == last)
    requires Disjoint(after) && ExactLog(after, v) && SliceUnique(log, asOf, v)
    ensures SliceUnique(after, asOf, v)
  {
    StepSettled(log, after, lo, last, now);
    forall i, j | 0 <= i < j < |after| && InSlice(after[i], asOf, v) && InSlice(after[j], asOf, v)
      ensures !SameRecord(after[i], after[j])
    {
      if asOf < now {
        assert j < |log|;
        assert InSlice(log[i], asOf, v) && InSlice(log[j], asOf, v);
      } else {
        DisjointCoversOnce(after, v, i, j);
      }
    }
  }

  predicate ExactEdit(ed: Edit, v: Ms) {
    v < MS_MAX || ((ed.Assert? ==> Bounded(ed.e)) && (ed.Truncate? ==> ed.cut < MS_MAX))
  }

  // Only intervals whose bounds stay below the largest timestamp are ever written; at every
  // earlier point this asks nothing.
  ghost predicate ExactRun(evs: seq<Event>, v: Ms) {
    forall k :: 0 <= k < |evs| && Edits(evs[k].write) ==> ExactEdit(EditOf(evs[k].write), v)
  }

  lemma KeptExact(ed: Edit, r: Entry, k: Entry, v: Ms)
    requires Touches(ed, r) && k in Kept(ed, r) && ExactRow(r, v) && ExactEdit(ed, v)
    ensures ExactRow(k, v)
  {
  }

  lemma PieceExact(log: seq<Entry>, ids: seq<nat>, ed: Edit, now: Ms, v: Ms, p: Entry)
    requires AllOpen(log, ids) && ExactLog(log, v) && ExactEdit(ed, v) && p in Pieces(log, ids, ed, now)
    ensures ExactRow(p, v)
  {
    var i, r := PieceOrigin(log, ids, ed, now, p);
    KeptExact(ed, log[i], r, v);
  }

  lemma RewriteExact(log: seq<Entry>, ids: seq<nat>, ed: Edit, now: Ms, v: Ms)
    requires AllOpen(log, ids) && ExactLog(log, v) && ExactEdit(ed, v)
    ensures ExactLog(Rewrite(log, ids, ed, now), v)
  {
    var after := Rewrite(log, ids, ed, now);
    forall j | |log| <= j < |after| ensures ExactRow(after[j], v) {
      PieceExact(log, ids, ed, now, v, Pieces(log, ids, ed, now)[j - |log|]);
    }
  }

  lemma StepExact(s: Tables, ev: Event, v: Ms)
    requires Enabled(s, ev) && ExactLog(s.log, v) && (Edits(ev.write) ==> ExactEdit(EditOf(ev.write), v))
    ensures ExactLog(LogAfter(s.log, ev), v)
  {
    if Edits(ev.write) {
      RewriteExact(s.log, ev.ids, EditOf(ev.write), ev.now, v);
    }
  }

  function Stamps(evs: seq<Event>): seq<Ms> {
    seq(|evs|, k requires 0 <= k < |evs| => evs[k].now)
  }

  predicate Peak(st: seq<Ms>, i: nat, j: nat, k: nat) {
    i < j < k < |st| && st[i] < st[j] && st[k] < st[j]
  }

  // No stamp is above both an earlier and a later one: they fall, if at all, before they rise.
  ghost predicate Peakless(st: seq<Ms>) {
    forall i: nat, j: nat, k: nat {:trigger Peak(st, i, j, k)} :: !Peak(st, i, j, k)
  }

  lemma PeaklessNext(lo: Ms, last: Ms, now: Ms, rest: seq<Ms>)
    requires Peakless([lo, last, now] + rest) && lo <= last
    ensures now < last ==> lo == last
    ensures Peakless([Earlier(lo, now), now] + rest)
  {
    var st, next := [lo, last, now] + rest, [Earlier(lo, now), now] + rest;
    assert !Peak(st, 0, 1, 2);
    forall i: nat, j: nat, k: nat ensures !Peak(next, i, j, k) {
      if i < j < k < |next| {
        assert !Peak(st, if i == 0 && lo <= now then 0 else if i == 0 then 2 else i + 1, j + 1, k + 1);
      }
    }
  }

  lemma PeaklessDoubled(st: seq<Ms>)
    requires Peakless(st) && st != []
    ensures Peakless([st[0], st[0]] + st)
  {
    var twice := [st[0], st[0]] + st;
    forall i: nat, j: nat, k: nat ensures !Peak(twice, i, j, k) {
      if i < j < k < |twice| && j >= 2 {
        assert !Peak(st, if i < 2 then 0 else i - 2, j - 2, k - 2);
      }
    }
  }

  lemma StampsNext(evs: seq<Event>)
    requires evs != []
    ensures Stamps(evs) == [evs[0].now] + Stamps(evs[1..])
  {
  }

  // Over every run whose stamps have no peak, every as-of slice holds at most one row of each record.
  lemma {:induction false} RunSliceUnique(s: Tables, lo: Ms, last: Ms, evs: seq<Event>, asOf: Ms, v: Ms)
    requires Legal(s, evs) && lo <= last && Peakless([lo, last] + Stamps(evs))
    requires Disjoint(s.log) && Settled(s.log, lo, last) && SliceUnique(s.log, asOf, v)
    requires ExactLog(s.log, v) && ExactRun(evs, v)
    ensures SliceUnique(Run(s, evs).log, asOf, v)
    decreases |evs|
  {
    if evs != [] {
      var next, now := Apply(s, evs[0]), evs[0].now;
      StampsNext(evs);
      assert [lo, last] + Stamps(evs) == [lo, last, now] + Stamps(evs[1..]);
      PeaklessNext(lo, last, now, Stamps(evs[1..]));
      StepStamped(s, evs[0]);
      StepDisjoint(s, evs[0]);
      StepExact(s, evs[0], v);
      StepSettled(s.log, next.log, lo, last, now);
      StepSliceUnique(s.log, next.log, lo, last, now, asOf, v);
      assert forall k :: 0 <= k < |evs[1..]| ==> evs[1..][k] == evs[k + 1];
      RunSliceUnique(next, Earlier(lo, now), now, evs[1..], asOf, v);
    }
  }

  const EMPTY := Tables([], {})

  // In particular from an empty store, at every point below the largest timestamp.
  lemma StoreSliceUnique(evs: seq<Event>, asOf: Ms, v: Ms)
    requires Legal(EMPTY, evs) && Peakless(Stamps(evs)) && v < MS_MAX
    ensures SliceUnique(Run(EMPTY, evs).log, asOf, v)
  {
    if evs != [] {
      var now := evs[0].now;
      PeaklessDoubled(Stamps(evs));
      RunSliceUnique(EMPTY, now, now, evs, asOf, v);
    }
  }

  function Version(body: string, from: Ms, to: Option<Ms>): Entry {
    Sample(body, 0, None).(systemFrom := from, systemTo := to)
  }

  function PutAt(body: string, now: Ms, ids: seq<nat>): Event {
    Event(Put(Sample(body, 0, None)), now, ids)
  }

  lemma PutOver(s: Tables, i: nat, body: string, now: Ms)
    requires forall k :: 0 <= k < |s.log| ==>
      SameRecord(s.log[k], Sample(body, 0, None)) && (Open(s.log[k]) <==> k == i)
    requires i < |s.log| && s.log[i].body != body && s.log[i].validFrom == 0 && s.log[i].validTo.None?
    ensures Enabled(s, PutAt(body, now, [i]))
    ensures Apply(s, PutAt(body, now, [i])).log == s.log[i := Closed(s.log[i], now)] + [Version(body, now, None)]
  {
    var e := Sample(body, 0, None);
    assert Pieces(s.log, [i], Assert(e), now) == Replacements(s.log, i, Assert(e), now) == [];
    assert CloseRows(s.log, [i], Assert(e), now) == s.log[i := Closed(s.log[i], now)];
  }

  // Three puts of one record, with writes that change nothing around them.
  function Peaking(st: seq<Ms>, i: nat, j: nat, k: nat, m: nat): Event
    requires m < |st|
  {
    if m == i then PutAt("a", st[m], [])
    else if m == j then PutAt("b", st[m], [0])
    else if m == k then PutAt("c", st[m], [1])
    else Event(Prune, st[m], [])
  }

  // The table before the `m`-th of them.
  function Stage(st: seq<Ms>, i: nat, j: nat, k: nat, m: nat): Tables
    requires i < j < k < |st|
  {
    if m <= i then EMPTY
    else if m <= j then Tables([Version("a", st[i], None)], {})
    else if m <= k then Tables([Version("a", st[i], Some(st[j])), Version("b", st[j], None)], {})
    else Tables([Version("a", st[i], Some(st[j])), Version("b", st[j], Some(st[k])), Version("c", st[k], None)], {})
  }

  lemma FirstPut(body: string, now: Ms)
    ensures Enabled(EMPTY, PutAt(body, now, []))
    ensures Apply(EMPTY, PutAt(body, now, [])) == Tables([Version(body, now, None)], {})
  {
    assert LogAfter([], PutAt(body, now, [])) == [Version(body, now, None)];
  }

  lemma Staged(st: seq<Ms>, i: nat, j: nat, k: nat, m: nat)
    requires i < j < k < |st| && m < |st|
    ensures Enabled(Stage(st, i, j, k, m), Peaking(st, i, j, k, m))
    ensures Apply(Stage(st, i, j, k, m), Peaking(st, i, j, k, m)) == Stage(st, i, j, k, m + 1)
  {
    var s := Stage(st, i, j, k, m);
    assert "a"[0] != "b"[0] && "b"[0] != "c"[0];
    if m == i {
      FirstPut("a", st[m]);
    } else if m == j {
      PutOver(s, 0, "b", st[m]);
    } else if m == k {
      PutOver(s, 1, "c", st[m]);
    }
  }

  lemma {:induction false} StagedRun(st: seq<Ms>, i: nat, j: nat, k: nat, m: nat) returns (evs: seq<Event>)
    requires i < j < k < |st| && m <= |st|
    ensures Stamps(evs) == st[m..] && Legal(Stage(st, i, j, k, m), evs)
    ensures Run(Stage(st, i, j, k, m), evs) == Stage(st, i, j, k, |st|)
    decreases |st| - m
  {
    evs := [];
    if m < |st| {
      var first := Peaking(st, i, j, k, m);
      var rest := StagedRun(st, i, j, k, m + 1);
      Staged(st, i, j, k, m);
      evs := [first] + rest;
      assert evs[1..] == rest;
      StampsNext(evs);
      assert st[m..] == [st[m]] + st[m + 1..];
    }
  }

  // Any peak breaks slices: some run with these stamps leaves two bodies believed between the
  // peak and whatever comes before and after it.
  lemma PeakBreaksSlices(st: seq<Ms>, i: nat, j: nat, k: nat) returns (evs: seq<Event>)
    requires Peak(st, i, j, k)
    ensures Stamps(evs) == st && Legal(EMPTY, evs)
    ensures forall asOf: Ms :: st[i] <= asOf < st[j] && st[k] <= asOf ==> !SliceUnique(Run(EMPTY, evs).log, asOf, 0)
  {
    evs := StagedRun(st, i, j, k, 0);
    assert st[0..] == st;
    var log := Stage(st, i, j, k, |st|).log;
    forall asOf: Ms | st[i] <= asOf < st[j] && st[k] <= asOf ensures !SliceUnique(log, asOf, 0) {
      assert InSlice(log[0], asOf, 0) && InSlice(log[2], asOf, 0) && SameRecord(log[0], log[2]);
    }
  }

  // Every run with these stamps keeps every slice unique.
  ghost predicate KeepSlicesUnique(st: seq<Ms>) {
    forall evs, asOf: Ms, v: Ms {:trigger SliceUnique(Run(EMPTY, evs).log, asOf, v)} ::
      Stamps(evs) == st && Legal(EMPTY, evs) && v < MS_MAX ==> SliceUnique(Run(EMPTY, evs).log, asOf, v)
  }

  // Slices stay unique, whatever is written, exactly when the stamps have no peak.
  lemma SlicesUniqueIff(st: seq<Ms>)
    ensures KeepSlicesUnique(st) <==> Peakless(st)
  {
    if Peakless(st) {
      forall evs, asOf: Ms, v: Ms | Stamps(evs) == st && Legal(EMPTY, evs) && v < MS_MAX
        ensures SliceUnique(Run(EMPTY, evs).log, asOf, v)
      {
        StoreSliceUnique(evs, asOf, v);
      }
    } else {
      var i: nat, j: nat, k: nat :| Peak(st, i, j, k);
      var evs := PeakBreaksSlices(st, i, j, k);
      var asOf := if st[i] < st[k] then st[k] else st[i];
      assert !SliceUnique(Run(EMPTY, evs).log, asOf, 0);
    }
  }

  // A clock that steps back: three puts stamped 10, 20 and 5 can leave two bodies believed as of 15.
  lemma ClockBackwards() returns (evs: seq<Event>)
    ensures Stamps(evs) == [10, 20, 5] && Legal(EMPTY, evs) && !SliceUnique(Run(EMPTY, evs).log, 15, 0)
    ensures !KeepSlicesUnique([10, 20, 5]) && KeepSlicesUnique([10, 5, 7])
  {
    var st: seq<Ms> := [10, 20, 5];
    assert Peak(st, 0, 1, 2);
    evs := PeakBreaksSlices(st, 0, 1, 2);
    SlicesUniqueIff(st);
    SlicesUniqueIff([10, 5, 7]);
  }

  // ---- Which clocks keep the present, the past and the work list right ----

  // Every row was recorded, and closed if at all, by `t`.
  ghost predicate StampsUpTo(log: seq<Entry>, t: Ms) {
    forall i :: 0 <= i < |log| ==> log[i].systemFrom <= t && (Open(log[i]) || log[i].systemTo.value <= t)
  }

  ghost predicate AllUpTo(st: seq<Ms>, t: Ms) {
    forall k :: 0 <= k < |st| ==> st[k] <= t
  }

  lemma UpToNext(evs: seq<Event>, t: Ms)
    requires evs != [] && AllUpTo(Stamps(evs), t)
    ensures evs[0].now <= t && AllUpTo(Stamps(evs[1..]), t)
  {
    StampsNext(evs);
    assert Stamps(evs)[0] == evs[0].now;
    forall k | 0 <= k < |evs[1..]| ensures Stamps(evs[1..])[k] <= t {
      assert Stamps(evs)[k + 1] == Stamps(evs[1..])[k];
    }
  }

  lemma {:induction false} RunStampsUpTo(s: Tables, evs: seq<Event>, t: Ms)
    requires Legal(s, evs) && StampsUpTo(s.log, t) && AllUpTo(Stamps(evs), t)
    ensures StampsUpTo(Run(s, evs).log, t)
    decreases |evs|
  {
    if evs != [] {
      StepStamped(s, evs[0]);
      UpToNext(evs, t);
      RunStampsUpTo(Apply(s, evs[0]), evs[1..], t);
    }
  }

  // One put among writes that change nothing.
  function PutAmong(st: seq<Ms>, k: nat, e: Entry): seq<Event> {
    seq(|st|, m requires 0 <= m < |st| => Event(if m == k then Put(e) else Prune, st[m], []))
  }

  lemma {:induction false} Quiet(s: Tables, evs: seq<Event>)
    requires s.edges == {} && forall m :: 0 <= m < |evs| ==> evs[m].write == Prune
    ensures Legal(s, evs) && Run(s, evs) == s
    decreases |evs|
  {
    if evs != [] {
      assert Apply(s, evs[0]) == s;
      Quiet(s, evs[1..]);
    }
  }

  lemma {:induction false} OnePut(evs: seq<Event>, k: nat, e: Entry)
    requires ValidInterval(e) && k < |evs| && evs[k].write == Put(e) && evs[k].ids == []
    requires forall m :: 0 <= m < |evs| && m != k ==> evs[m].write == Prune
    ensures Legal(EMPTY, evs) && Run(EMPTY, evs) == Tables([Inserted(e, evs[k].now)], {})
    decreases |evs|
  {
    if k == 0 {
      assert LogAfter([], evs[0]) == [Inserted(e, evs[0].now)];
      Quiet(Apply(EMPTY, evs[0]), evs[1..]);
    } else {
      assert Apply(EMPTY, evs[0]) == EMPTY;
      OnePut(evs[1..], k - 1, e);
    }
  }

  lemma PutAmongRuns(st: seq<Ms>, k: nat, e: Entry)
    requires ValidInterval(e)
    ensures Stamps(PutAmong(st, k, e)) == st && Legal(EMPTY, PutAmong(st, k, e))
    ensures Run(EMPTY, PutAmong(st, k, e)) == if k < |st| then Tables([Inserted(e, st[k])], {}) else EMPTY
  {
    var evs := PutAmong(st, k, e);
    if k < |st| { OnePut(evs, k, e); } else { Quiet(EMPTY, evs); }
  }

  // The slice of an ordinary query: open rows valid at `now`.
  predicate CurrentAt(r: Entry, now: Ms) {
    Open(r) && Covers(r, now)
  }

  ghost predicate SameSlices(log: seq<Entry>, now: Ms) {
    forall i :: 0 <= i < |log| ==> (CurrentAt(log[i], now) <==> InSlice(log[i], now, now))
  }

  // While no stamp lies ahead of "now", the slice of an ordinary query is the as-of slice at (now, now).
  lemma CurrentIsAsOfNow(s: Tables, evs: seq<Event>, now: Ms)
    requires Legal(s, evs) && StampsUpTo(s.log, now) && AllUpTo(Stamps(evs), now)
    ensures SameSlices(Run(s, evs).log, now)
  {
    RunStampsUpTo(s, evs, now);
  }

  ghost predicate NowIsAsOfNow(st: seq<Ms>, now: Ms) {
    forall evs {:trigger Legal(EMPTY, evs)} ::
      Stamps(evs) == st && Legal(EMPTY, evs) ==> SameSlices(Run(EMPTY, evs).log, now)
  }

  // Whatever is written, exactly then.
  lemma CurrentIff(st: seq<Ms>, now: Ms)
    ensures NowIsAsOfNow(st, now) <==> AllUpTo(st, now)
  {
    if AllUpTo(st, now) {
      forall evs | Stamps(evs) == st && Legal(EMPTY, evs) ensures SameSlices(Run(EMPTY, evs).log, now) {
        CurrentIsAsOfNow(EMPTY, evs, now);
      }
    } else {
      var k :| 0 <= k < |st| && st[k] > now;
      var e := Sample("a", now, None);
      PutAmongRuns(st, k, e);
      var log := Run(EMPTY, PutAmong(st, k, e)).log;
      assert CurrentAt(log[0], now) && !InSlice(log[0], now, now);
    }
  }

  // A run of these stamps leaves the past as of `asOf` alone, from any table.
  ghost predicate PastStays(st: seq<Ms>, asOf: Ms) {
    forall s, evs, v: Ms {:trigger Legal(s, evs), SliceRows(s.log, asOf, v)} ::
      Stamps(evs) == st && Legal(s, evs) ==> SliceRows(Run(s, evs).log, asOf, v) == SliceRows(s.log, asOf, v)
  }

  // The past as of a time stays as it is, whatever is written, exactly when every stamp is later.
  lemma PastStaysIff(st: seq<Ms>, asOf: Ms)
    ensures PastStays(st, asOf) <==> forall k :: 0 <= k < |st| ==> asOf < st[k]
  {
    if forall k :: 0 <= k < |st| ==> asOf < st[k] {
      forall s: Tables, evs: seq<Event>, v: Ms | Stamps(evs) == st && Legal(s, evs)
        ensures SliceRows(Run(s, evs).log, asOf, v) == SliceRows(s.log, asOf, v)
      {
        assert forall k :: 0 <= k < |evs| ==> evs[k].now == Stamps(evs)[k];
        RunFreezesPast(s, evs, asOf, v);
      }
    } else {
      var k :| 0 <= k < |st| && st[k] <= asOf;
      var e := Sample("a", 0, None);
      PutAmongRuns(st, k, e);
      assert 0 in SliceRows(Run(EMPTY, PutAmong(st, k, e)).log, asOf, 0);
      assert SliceRows(EMPTY.log, asOf, 0) == {};
    }
  }

  // `uris_changed_since`: uris with a row recorded or closed at or after `since`.
  ghost function ChangedSince(log: seq<Entry>, since: Ms): set<string> {
    set i | 0 <= i < |log|
      && (since <= log[i].systemFrom || (log[i].systemTo.Some? && since <= log[i].systemTo.value)) :: log[i].uri
  }

  // Uris of the rows in which two tables differ.
  ghost function Changed(log: seq<Entry>, after: seq<Entry>): set<string> {
    set i | 0 <= i < |after| && (i >= |log| || after[i] != log[i]) :: after[i].uri
  }

  ghost predicate ChangesSince(log: seq<Entry>, after: seq<Entry>, since: Ms) {
    && |log| <= |after|
    && (forall i :: 0 <= i < |log| ==>
      after[i] == log[i] || (after[i].systemTo.Some? && since <= after[i].systemTo.value))
    && (forall j :: |log| <= j < |after| ==> since <= after[j].systemFrom)
  }

  lemma ChangesSinceTransitive(a: seq<Entry>, b: seq<Entry>, c: seq<Entry>, since: Ms)
    requires ChangesSince(a, b, since) && Extends(b, c) && ChangesSince(b, c, since)
    ensures ChangesSince(a, c, since)
  {
    forall i | 0 <= i < |a| ensures c[i] == a[i] || (c[i].systemTo.Some? && since <= c[i].systemTo.value) {
      assert c[i] == b[i] || (c[i].systemTo.Some? && since <= c[i].systemTo.value);
    }
  }

  lemma {:induction false} RunChangesSince(s: Tables, evs: seq<Event>, since: Ms)
    requires Legal(s, evs) && forall k :: 0 <= k < |evs| ==> since <= evs[k].now
    ensures ChangesSince(s.log, Run(s, evs).log, since)
    decreases |evs|
  {
    if evs != [] {
      var next := Apply(s, evs[0]);
      StepStamped(s, evs[0]);
      RunExtends(next, evs[1..]);
      RunChangesSince(next, evs[1..], since);
      ChangesSinceTransitive(s.log, next.log, Run(s, evs).log, since);
    }
  }

  // Every row was recorded, and closed if at all, before `since`.
  ghost predicate StampsBefore(log: seq<Entry>, since: Ms) {
    forall i :: 0 <= i < |log| ==> log[i].systemFrom < since && (Open(log[i]) || log[i].systemTo.value < since)
  }

  ghost predicate AllBefore(st: seq<Ms>, since: Ms) {
    forall k :: 0 <= k < |st| ==> st[k] < since
  }

  ghost predicate AllFrom(st: seq<Ms>, since: Ms) {
    forall k :: 0 <= k < |st| ==> since <= st[k]
  }

  lemma {:induction false} RunStampsBefore(s: Tables, evs: seq<Event>, since: Ms)
    requires Legal(s, evs) && StampsBefore(s.log, since) && forall k :: 0 <= k < |evs| ==> evs[k].now < since
    ensures StampsBefore(Run(s, evs).log, since)
    decreases |evs|
  {
    if evs != [] {
      StepStamped(s, evs[0]);
      RunStampsBefore(Apply(s, evs[0]), evs[1..], since);
    }
  }

  // The work list since a time is exactly the uris with a row inserted or closed after it.
  ghost predicate ListsChanges(log: seq<Entry>, after: seq<Entry>, since: Ms) {
    ChangedSince(after, since) == Changed(log, after)
  }

  lemma DifferenceIsRecent(log: seq<Entry>, after: seq<Entry>, since: Ms)
    requires StampsBefore(log, since) && ChangesSince(log, after, since)
    ensures ListsChanges(log, after, since)
  {
  }

  // Cut a run at any time between the stamps before it and those after it.
  lemma WorkListExact(s: Tables, before: seq<Event>, later: seq<Event>, since: Ms)
    requires Legal(s, before) && Legal(Run(s, before), later) && StampsBefore(s.log, since)
    requires AllBefore(Stamps(before), since) && AllFrom(Stamps(later), since)
    ensures ListsChanges(Run(s, before).log, Run(Run(s, before), later).log, since)
  {
    assert forall k :: 0 <= k < |before| ==> before[k].now == Stamps(before)[k];
    assert forall k :: 0 <= k < |later| ==> later[k].now == Stamps(later)[k];
    RunStampsBefore(s, before, since);
    RunChangesSince(Run(s, before), later, since);
    DifferenceIsRecent(Run(s, before).log, Run(Run(s, before), later).log, since);
  }

  // Two runs of these stamps, one after the other.
  ghost predicate Parted(a: seq<Ms>, b: seq<Ms>, before: seq<Event>, later: seq<Event>) {
    Stamps(before) == a && Stamps(later) == b && Legal(EMPTY, before) && Legal(Run(EMPTY, before), later)
  }

  ghost predicate ListIsExact(a: seq<Ms>, b: seq<Ms>, since: Ms) {
    forall before, later :: Parted(a, b, before, later) ==>
      ListsChanges(Run(EMPTY, before).log, Run(Run(EMPTY, before), later).log, since)
  }

  lemma EarlyListed(a: seq<Ms>, b: seq<Ms>, since: Ms, k: nat)
    requires k < |a| && since <= a[k]
    ensures !ListIsExact(a, b, since)
  {
    var e := Sample("a", 0, None);
    var before, later := PutAmong(a, k, e), PutAmong(b, |b|, e);
    PutAmongRuns(a, k, e);
    PutAmongRuns(b, |b|, e);
    Quiet(Run(EMPTY, before), later);
    var log := Run(EMPTY, before).log;
    assert log[0].uri in ChangedSince(log, since) && Changed(log, log) == {};
    assert Parted(a, b, before, later);
  }

  lemma LateMissed(a: seq<Ms>, b: seq<Ms>, since: Ms, k: nat)
    requires k < |b| && b[k] < since
    ensures !ListIsExact(a, b, since)
  {
    var e := Sample("a", 0, None);
    var before, later := PutAmong(a, |a|, e), PutAmong(b, k, e);
    PutAmongRuns(a, |a|, e);
    PutAmongRuns(b, k, e);
    var log := Run(EMPTY, later).log;
    assert log[0].uri in Changed([], log) && ChangedSince(log, since) == {};
    assert Parted(a, b, before, later);
  }

  // The work list is right, whatever is written, exactly when the cut parts the stamps.
  lemma WorkListIff(a: seq<Ms>, b: seq<Ms>, since: Ms)
    ensures ListIsExact(a, b, since) <==> AllBefore(a, since) && AllFrom(b, since)
  {
    if AllBefore(a, since) && AllFrom(b, since) {
      forall before, later | Parted(a, b, before, later)
        ensures ListsChanges(Run(EMPTY, before).log, Run(Run(EMPTY, before), later).log, since)
      {
        WorkListExact(EMPTY, before, later, since);
      }
    } else if !AllBefore(a, since) {
      var k: nat :| k < |a| && since <= a[k];
      EarlyListed(a, b, since, k);
    } else {
      var k: nat :| k < |b| && b[k] < since;
      LateMissed(a, b, since, k);
    }
  }

  // ---- The graph cascade ----

  ghost predicate UrisAreKeys(log: seq<Entry>) {
    forall i :: 0 <= i < |log| ==> log[i].uri == log[i].dedupKey
  }

  ghost predicate EdgesLive(s: Tables) {
    forall e :: e in s.edges ==> LiveEdge(s.log, e)
  }

  // An edge lost to a put, forget or invalidate had an endpoint no audience holds any more.
  lemma OnlyDeadEdgesGo(s: Tables, ev: Event, e: Edge)
    requires Enabled(s, ev) && (ev.write.Put? || ev.write.Forget? || ev.write.Invalidate?)
    requires e in s.edges && e !in Apply(s, ev).edges
    ensures !LiveEdge(Apply(s, ev).log, e)
  {
  }

  lemma RewriteKeepsLive(log: seq<Entry>, sel: Selection, ids: seq<nat>, ed: Edit, now: Ms, uri: string)
    requires Listing(log, sel, ids) && Live(log, uri)
    requires forall i :: 0 <= i < |log| && Open(log[i]) && Selects(sel, log[i]) ==> log[i].uri != uri
    ensures Live(Rewrite(log, ids, ed, now), uri)
  {
    var i: nat :| i < |log| && Open(log[i]) && log[i].uri == uri;
    UntouchedRow(log, ids, ed, now, i);
  }

  // A put leaves nothing of a row of its record whose whole interval it asserts.
  predicate Swallowed(r: Entry, e: Entry) {
    SameRecord(r, e) && Overlap(r, e) && e.validFrom <= r.validFrom && Vto(r.validTo) <= Vto(e.validTo)
  }

  lemma SwallowedKeepsNothing(r: Entry, e: Entry)
    requires SameRecord(r, e) && Overlap(r, e)
    ensures Swallowed(r, e) <==> Kept(Assert(e), r) == []
  {
  }

  // A uri that a put of `e` leaves an open row of.
  predicate Outlives(log: seq<Entry>, e: Entry, uri: string) {
    uri == e.uri || exists i :: 0 <= i < |log| && Open(log[i]) && log[i].uri == uri && !Swallowed(log[i], e)
  }

  lemma SurvivorStays(log: seq<Entry>, ids: seq<nat>, e: Entry, now: Ms, i: nat)
    requires Listing(log, RecordOf(e), ids) && i < |log| && Open(log[i]) && !Swallowed(log[i], e)
    ensures Live(Rewrite(log, ids, Assert(e), now), log[i].uri)
  {
    if i in ids && Touches(Assert(e), log[i]) {
      SwallowedKeepsNothing(log[i], e);
      var k := Kept(Assert(e), log[i])[0];
      KeptWithin(Assert(e), log[i], k);
      var j := PieceAdded(log, ids, Assert(e), now, i, k);
    } else {
      UntouchedRow(log, ids, Assert(e), now, i);
    }
  }

  lemma SwallowedIsClosed(log: seq<Entry>, ids: seq<nat>, e: Entry, now: Ms, j: nat)
    requires Listing(log, RecordOf(e), ids) && j < |log|
    ensures Open(log[j]) && Swallowed(log[j], e) ==> !Open(Rewrite(log, ids, Assert(e), now)[j])
  {
    if Open(log[j]) && Swallowed(log[j], e) {
      assert j in ids;
      assert Rewrite(log, ids, Assert(e), now)[j] == Closed(log[j], now);
    }
  }

  lemma PieceOutlives(log: seq<Entry>, ids: seq<nat>, e: Entry, now: Ms, p: Entry)
    requires Listing(log, RecordOf(e), ids) && p in Pieces(log, ids, Assert(e), now)
    ensures Outlives(log, e, p.uri)
  {
    var i, r := PieceOrigin(log, ids, Assert(e), now, p);
    SwallowedKeepsNothing(log[i], e);
    KeptWithin(Assert(e), log[i], r);
  }

  lemma RowStays(log: seq<Entry>, ids: seq<nat>, ed: Edit, now: Ms, j: nat)
    requires j < |log| && Open(Rewrite(log, ids, ed, now)[j])
    ensures Rewrite(log, ids, ed, now)[j] == log[j]
  {
  }

  lemma SurvivorOf(log: seq<Entry>, ids: seq<nat>, e: Entry, now: Ms, j: nat)
    requires Listing(log, RecordOf(e), ids) && j < |Rewrite(log, ids, Assert(e), now)|
    requires Open(Rewrite(log, ids, Assert(e), now)[j])
    ensures Outlives(log, e, Rewrite(log, ids, Assert(e), now)[j].uri)
  {
    if j < |log| {
      SwallowedIsClosed(log, ids, e, now, j);
      RowStays(log, ids, Assert(e), now, j);
    } else {
      PieceOutlives(log, ids, e, now, Pieces(log, ids, Assert(e), now)[j - |log|]);
    }
  }

  lemma PutLiveIff(log: seq<Entry>, ids: seq<nat>, e: Entry, now: Ms, uri: string)
    requires Listing(log, RecordOf(e), ids)
    ensures Live(PutLog(log, ids, e, now), uri) <==> if Already(log, e) then Live(log, uri) else Outlives(log, e, uri)
  {
    if !Already(log, e) {
      var cut, after := Rewrite(log, ids, Assert(e), now), PutLog(log, ids, e, now);
      if Outlives(log, e, uri) {
        if uri == e.uri {
          assert after[|after| - 1] == Inserted(e, now);
        } else {
          var i: nat :| i < |log| && Open(log[i]) && log[i].uri == uri && !Swallowed(log[i], e);
          SurvivorStays(log, ids, e, now, i);
          var j :| 0 <= j < |cut| && Open(cut[j]) && cut[j].uri == uri;
          assert after[j] == cut[j];
        }
      }
      if Live(after, uri) {
        var j: nat :| j < |after| && Open(after[j]) && after[j].uri == uri;
        if j < |cut| { SurvivorOf(log, ids, e, now, j); }
      }
    }
  }

  lemma KeysOutlive(log: seq<Entry>, e: Entry, uri: string)
    requires UrisAreKeys(log) && e.uri == e.dedupKey && Live(log, uri)
    ensures Outlives(log, e, uri)
  {
    var i :| 0 <= i < |log| && Open(log[i]) && log[i].uri == uri;
  }

  // With keys equal to uris, a put leaves every live uri live.
  lemma PutKeepsLive(log: seq<Entry>, ids: seq<nat>, e: Entry, now: Ms, uri: string)
    requires Listing(log, RecordOf(e), ids) && UrisAreKeys(log) && e.uri == e.dedupKey && Live(log, uri)
    ensures Live(PutLog(log, ids, e, now), uri)
  {
    PutLiveIff(log, ids, e, now, uri);
    KeysOutlive(log, e, uri);
  }

  // What keeps the graph sound, as a caller could tell beforehand: a put outlived by every edge
  // endpoint, and links that join live records. The other writes always do.
  ghost predicate KeepsEdges(s: Tables, w: Write) {
    && (w.Put? && !Rejected(w) ==> Already(s.log, w.e) || forall d :: d in s.edges ==>
      Outlives(s.log, w.e, d.fromUri) && Outlives(s.log, w.e, d.toUri))
    && (w.Link? ==> LiveEdge(s.log, w.edge))
  }

  lemma PutEdgesIff(s: Tables, ev: Event)
    requires Enabled(s, ev) && EdgesLive(s) && ev.write.Put? && !Rejected(ev.write)
    ensures EdgesLive(Apply(s, ev)) <==> KeepsEdges(s, ev.write)
  {
    var e, after := ev.write.e, Apply(s, ev);
    forall d | d in s.edges
      ensures LiveEdge(after.log, d) <==>
        Already(s.log, e) || (Outlives(s.log, e, d.fromUri) && Outlives(s.log, e, d.toUri))
    {
      PutLiveIff(s.log, ev.ids, e, ev.now, d.fromUri);
      PutLiveIff(s.log, ev.ids, e, ev.now, d.toUri);
    }
  }

  lemma RetractionKeeps(s: Tables, ev: Event, e: Edge, end: string)
    requires Enabled(s, ev) && Edits(ev.write) && !ev.write.Put?
    requires e in Apply(s, ev).edges && Live(s.log, end) && (end == e.fromUri || end == e.toUri)
    ensures Live(LogAfter(s.log, ev), end)
  {
    var w := ev.write;
    if end != w.uri {
      RewriteKeepsLive(s.log, SelectionOf(w), ev.ids, EditOf(w), ev.now, end);
    } else if !TouchesAny(s.log, ev.ids, EditOf(w)) {
      NothingTouched(s.log, ev.ids, EditOf(w), ev.now);
    }
  }

  // From a table whose edges join live uris, a write leaves none with a dead endpoint exactly when
  // it keeps the edges.
  lemma StepEdgesIff(s: Tables, ev: Event)
    requires Enabled(s, ev) && EdgesLive(s)
    ensures EdgesLive(Apply(s, ev)) <==> KeepsEdges(s, ev.write)
  {
    var w, after := ev.write, Apply(s, ev);
    if w.Put? && !Rejected(w) {
      PutEdgesIff(s, ev);
    } else if Edits(w) {
      forall e | e in after.edges ensures LiveEdge(after.log, e) {
        RetractionKeeps(s, ev, e, e.fromUri);
        RetractionKeeps(s, ev, e, e.toUri);
      }
    } else if w.Link? {
      assert w.edge in after.edges;
    }
  }

  // Records keyed by their uri, and links that join live records, are enough.
  predicate SoundWrite(s: Tables, w: Write) {
    && (w.Put? ==> w.e.uri == w.e.dedupKey)
    && (w.Link? ==> LiveEdge(s.log, w.edge))
  }

  lemma StepEdgesLive(s: Tables, ev: Event)
    requires Enabled(s, ev) && UrisAreKeys(s.log) && EdgesLive(s) && SoundWrite(s, ev.write)
    ensures EdgesLive(Apply(s, ev))
  {
    var w := ev.write;
    if w.Put? {
      forall d | d in s.edges ensures Outlives(s.log, w.e, d.fromUri) && Outlives(s.log, w.e, d.toUri) {
        KeysOutlive(s.log, w.e, d.fromUri);
        KeysOutlive(s.log, w.e, d.toUri);
      }
    }
    StepEdgesIff(s, ev);
  }

  lemma PieceKeyed(log: seq<Entry>, ids: seq<nat>, ed: Edit, now: Ms, p: Entry)
    requires UrisAreKeys(log) && p in Pieces(log, ids, ed, now)
    ensures p.uri == p.dedupKey
  {
    var i, r := PieceOrigin(log, ids, ed, now, p);
    KeptWithin(ed, log[i], r);
  }

  lemma RewriteUrisAreKeys(log: seq<Entry>, ids: seq<nat>, ed: Edit, now: Ms)
    requires UrisAreKeys(log)
    ensures UrisAreKeys(Rewrite(log, ids, ed, now))
  {
    var pieces := Pieces(log, ids, ed, now);
    forall k | 0 <= k < |pieces| ensures pieces[k].uri == pieces[k].dedupKey {
      PieceKeyed(log, ids, ed, now, pieces[k]);
    }
  }

  lemma StepUrisAreKeys(s: Tables, ev: Event)
    requires Enabled(s, ev) && UrisAreKeys(s.log) && SoundWrite(s, ev.write)
    ensures UrisAreKeys(Apply(s, ev).log)
  {
    if Edits(ev.write) {
      RewriteUrisAreKeys(s.log, ev.ids, EditOf(ev.write), ev.now);
    }
  }

  ghost predicate SoundRun(s: Tables, evs: seq<Event>)
    decreases |evs|
  {
    evs == [] || (SoundWrite(s, evs[0].write) && SoundRun(Apply(s, evs[0]), evs[1..]))
  }

  // Every write of a run keeps the edges.
  ghost predicate AllKeepEdges(s: Tables, evs: seq<Event>)
    decreases |evs|
  {
    evs == [] || (KeepsEdges(s, evs[0].write) && AllKeepEdges(Apply(s, evs[0]), evs[1..]))
  }

  // Every table of a run has live edges only.
  ghost predicate EdgesLiveThroughout(s: Tables, evs: seq<Event>)
    decreases |evs|
  {
    EdgesLive(s) && (evs == [] || EdgesLiveThroughout(Apply(s, evs[0]), evs[1..]))
  }

  lemma {:induction false} RunEdgesIff(s: Tables, evs: seq<Event>)
    requires Legal(s, evs) && EdgesLive(s)
    ensures EdgesLiveThroughout(s, evs) <==> AllKeepEdges(s, evs)
    decreases |evs|
  {
    if evs != [] {
      StepEdgesIff(s, evs[0]);
      if KeepsEdges(s, evs[0].write) { RunEdgesIff(Apply(s, evs[0]), evs[1..]); }
    }
  }

  lemma {:induction false} RunEdgesLive(s: Tables, evs: seq<Event>)
    requires Legal(s, evs) && UrisAreKeys(s.log) && EdgesLive(s) && SoundRun(s, evs)
    ensures EdgesLive(Run(s, evs)) && UrisAreKeys(Run(s, evs).log)
    decreases |evs|
  {
    if evs != [] {
      StepEdgesLive(s, evs[0]);
      StepUrisAreKeys(s, evs[0]);
      RunEdgesLive(Apply(s, evs[0]), evs[1..]);
    }
  }

  // From any edge set, pruning removes exactly the edges with a dead endpoint; a second pruning
  // finds nothing.
  lemma PruneSettles(s: Tables, now: Ms)
    ensures var once := Apply(s, Event(Prune, now, []));
      && once.log == s.log && EdgesLive(once)
      && (forall e :: e in s.edges - once.edges ==> !LiveEdge(s.log, e))
      && Apply(once, Event(Prune, now, [])) == once
  {
  }

  // A put under a key that is not its uri can swallow another uri's last row and leave that uri's
  // edges behind.
  lemma KeysMatter(now: Ms)
    ensures var row, e := Sample("a", 0, None), Sample("b", 0, None).(uri := "w");
      var s, ev := Tables([row], {Edge("u", "u", "links")}), Event(Put(e), now, [0]);
      Enabled(s, ev) && EdgesLive(s) && UrisAreKeys(s.log) && !EdgesLive(Apply(s, ev))
  {
    var row, e := Sample("a", 0, None), Sample("b", 0, None).(uri := "w");
    var s := Tables([row], {Edge("u", "u", "links")});
    assert "u"[0] != "w"[0] && "a"[0] != "b"[0];
    assert s.log[0].uri == "u" && Edge("u", "u", "links") in s.edges;
    assert Swallowed(row, e) && !Outlives(s.log, e, "u");
    StepEdgesIff(s, Event(Put(e), now, [0]));
  }
}
