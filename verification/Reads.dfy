// The content reads of src/sqlite.rs: filter, order, limit. What a reader gets depends only on
// the rows it may see, and what was recorded as of the past does not change.
module Reads {
  import opened Records
  import opened Timeline
  import opened Beliefs
  import opened Runs
  import opened Visibility

  // ---- Queries ----

  function Filter(p: Entry -> bool, s: seq<Entry>): seq<Entry> {
    if s == [] then []
    else
      var last := s[|s| - 1];
      Filter(p, s[..|s| - 1]) + if p(last) then [last] else []
  }

  // The rows a query asks for, before the reader gates.
  datatype Want =
    | ByUri(uri: string, now: Ms)
    | Recent(now: Ms)
    | OfKind(kind: string, now: Ms)
    | Versions(uri: string)
    | AsOf(asOf: Ms, v: Ms)
    | Anything

  predicate Where(w: Want, e: Entry) {
    match w
    case ByUri(uri, now) => e.uri == uri && CurrentAt(e, now)
    case Recent(now) => CurrentAt(e, now) && e.kind != "skill"
    case OfKind(kind, now) => e.kind == kind && CurrentAt(e, now)
    case Versions(uri) => e.uri == uri
    case AsOf(asOf, v) => InSlice(e, asOf, v) && e.kind != "skill"
    case Anything => true
  }

  predicate BySignificance(w: Want) {
    w.Recent? || w.OfKind? || w.AsOf?
  }

  // ORDER BY importance DESC, created DESC (a tie left as inserted), or system time DESC, id
  // DESC. `Ahead`: the later-inserted `e` goes before `x`.
  predicate Ahead(w: Want, e: Entry, x: Entry) {
    if BySignificance(w) then e.importance > x.importance || (e.importance == x.importance && e.createdMs > x.createdMs)
    else e.systemFrom >= x.systemFrom
  }

  function Place(w: Want, e: Entry, s: seq<Entry>): seq<Entry> {
    if s == [] then [e]
    else if Ahead(w, e, s[0]) then [e] + s
    else [s[0]] + Place(w, e, s[1..])
  }

  function Sorted(w: Want, s: seq<Entry>): seq<Entry> {
    if s == [] then [] else Place(w, s[|s| - 1], Sorted(w, s[..|s| - 1]))
  }

  function Take(s: seq<Entry>, n: nat): seq<Entry> {
    if n < |s| then s[..n] else s
  }

  function Wants(w: Want): Entry -> bool { e => Where(w, e) }
  function Admits(view: View): Entry -> bool { e => RowOk(view, e) }
  function AdmitsSql(view: View, w: Want): Entry -> bool { e => Where(w, e) && SqlOk(view, e) }
  function Mentions(hit: string -> bool): Entry -> bool { e => hit(IndexedText(e)) }

  // `get`, `recent`, `by_kind`, `history` and, over `Anything`, `latest_save_ms`: gates and LIMIT
  // in SQL, then both again in code.
  function Query(log: seq<Entry>, view: View, w: Want, limit: nat): seq<Entry> {
    Take(Filter(Admits(view), Take(Sorted(w, Filter(AdmitsSql(view, w), log)), limit)), limit)
  }

  function LatestSave(log: seq<Entry>, view: View): Option<Ms> {
    var newest := Query(log, view, Anything, 1);
    if newest == [] then None else Some(newest[0].systemFrom)
  }

  const MAX_AS_OF_SCAN := 10_000

  // The scan is capped before the keyword test; `hit` is that test (it holds of every text when
  // the query has no terms).
  function RecallAsOf(log: seq<Entry>, view: View, hit: string -> bool, limit: nat, asOf: Ms, v: Ms): seq<Entry> {
    var slice := Sorted(AsOf(asOf, v), Filter(AdmitsSql(view, AsOf(asOf, v)), log));
    Take(Filter(Mentions(hit), Take(Filter(Admits(view), slice), MAX_AS_OF_SCAN)), limit)
  }

  // ---- Filters ----

  lemma FilterSnoc(p: Entry -> bool, s: seq<Entry>, e: Entry)
    ensures Filter(p, s + [e]) == Filter(p, s) + if p(e) then [e] else []
  {
    assert (s + [e])[..|s|] == s;
  }

  lemma FilterSkips(p: Entry -> bool, s: seq<Entry>, e: Entry)
    requires !p(e)
    ensures Filter(p, s + [e]) == Filter(p, s)
  {
    FilterSnoc(p, s, e);
  }

  lemma FilterTakes(p: Entry -> bool, s: seq<Entry>, e: Entry)
    requires p(e)
    ensures Filter(p, s + [e]) == Filter(p, s) + [e]
  {
    FilterSnoc(p, s, e);
  }

  lemma {:induction false} FilterMembers(p: Entry -> bool, s: seq<Entry>)
    ensures forall e :: e in Filter(p, s) ==> e in s && p(e)
  {
    if s != [] {
      var front, last := s[..|s| - 1], s[|s| - 1];
      FilterMembers(p, front);
      assert s == front + [last];
      FilterSnoc(p, front, last);
    }
  }

  lemma {:induction false} FilterSame(p: Entry -> bool, q: Entry -> bool, s: seq<Entry>)
    requires forall e :: e in s ==> p(e) == q(e)
    ensures Filter(p, s) == Filter(q, s)
  {
    if s != [] {
      var front, last := s[..|s| - 1], s[|s| - 1];
      assert s == front + [last];
      FilterSame(p, q, front);
      FilterSnoc(p, front, last);
      FilterSnoc(q, front, last);
    }
  }

  lemma {:induction false} FilterTwice(p: Entry -> bool, q: Entry -> bool, both: Entry -> bool, s: seq<Entry>)
    requires forall e :: both(e) <==> p(e) && q(e)
    ensures Filter(q, Filter(p, s)) == Filter(both, s)
  {
    if s != [] {
      var front, last := s[..|s| - 1], s[|s| - 1];
      assert s == front + [last];
      FilterTwice(p, q, both, front);
      FilterSnoc(both, front, last);
      assert both(last) <==> p(last) && q(last);
      if p(last) {
        FilterTakes(p, front, last);
        FilterSnoc(q, Filter(p, front), last);
      } else {
        FilterSkips(p, front, last);
      }
    }
  }

  lemma {:induction false} FilterAll(p: Entry -> bool, s: seq<Entry>)
    requires forall e :: e in s ==> p(e)
    ensures Filter(p, s) == s
  {
    if s != [] {
      var front, last := s[..|s| - 1], s[|s| - 1];
      assert s == front + [last];
      FilterAll(p, front);
      FilterSnoc(p, front, last);
    }
  }

  // ---- The order is an order ----

  lemma {:induction false} PlaceMembers(w: Want, e: Entry, s: seq<Entry>)
    ensures multiset(Place(w, e, s)) == multiset(s) + multiset{e}
  {
    if s != [] && !Ahead(w, e, s[0]) {
      PlaceMembers(w, e, s[1..]);
      assert s == [s[0]] + s[1..];
    }
  }

  lemma LastMember(s: seq<Entry>)
    requires s != []
    ensures multiset(s) == multiset(s[..|s| - 1]) + multiset{s[|s| - 1]}
  {
    assert s == s[..|s| - 1] + [s[|s| - 1]];
  }

  lemma {:induction false} SortedMembers(w: Want, s: seq<Entry>)
    ensures multiset(Sorted(w, s)) == multiset(s)
  {
    if s != [] {
      var front, last := s[..|s| - 1], s[|s| - 1];
      SortedMembers(w, front);
      PlaceMembers(w, last, Sorted(w, front));
      LastMember(s);
    }
  }

  // `a` may stand before `b`.
  predicate InOrder(w: Want, a: Entry, b: Entry) {
    if BySignificance(w) then
      a.importance > b.importance || (a.importance == b.importance && a.createdMs >= b.createdMs)
    else a.systemFrom >= b.systemFrom
  }

  ghost predicate Ordered(w: Want, s: seq<Entry>) {
    forall i, j :: 0 <= i < j < |s| ==> InOrder(w, s[i], s[j])
  }

  lemma {:induction false} PlaceOrdered(w: Want, e: Entry, s: seq<Entry>)
    requires Ordered(w, s)
    ensures Ordered(w, Place(w, e, s))
  {
    if s != [] && !Ahead(w, e, s[0]) {
      PlaceOrdered(w, e, s[1..]);
      PlaceMembers(w, e, s[1..]);
      var rest := Place(w, e, s[1..]);
      forall j | 0 <= j < |rest| ensures InOrder(w, s[0], rest[j]) {
        assert rest[j] in multiset(rest);
        assert rest[j] == e || rest[j] in s[1..];
      }
    }
  }

  // Every query answers best first, and with exactly the rows it filtered.
  lemma {:induction false} SortedIsOrdered(w: Want, s: seq<Entry>)
    ensures Ordered(w, Sorted(w, s)) && multiset(Sorted(w, s)) == multiset(s)
  {
    if s != [] {
      SortedIsOrdered(w, s[..|s| - 1]);
      PlaceOrdered(w, s[|s| - 1], Sorted(w, s[..|s| - 1]));
      SortedMembers(w, s);
    }
  }

  // ---- A read is the unrestricted read over the rows the reader may see ----

  lemma GatedRows(log: seq<Entry>, view: View, w: Want)
    requires Canonical(view)
    ensures Filter(AdmitsSql(view, w), log) == Filter(Wants(w), Filter(Admits(view), log))
  {
    forall e ensures AdmitsSql(view, w)(e) <==> Admits(view)(e) && Wants(w)(e) { SqlIsRowGate(view, e); }
    FilterTwice(Admits(view), Wants(w), AdmitsSql(view, w), log);
  }

  lemma SortedAdmitted(log: seq<Entry>, view: View, w: Want)
    requires Canonical(view)
    ensures forall e :: e in Sorted(w, Filter(AdmitsSql(view, w), log)) ==> Admits(view)(e)
  {
    var rows := Filter(AdmitsSql(view, w), log);
    FilterMembers(AdmitsSql(view, w), log);
    SortedMembers(w, rows);
    forall e | e in Sorted(w, rows) ensures Admits(view)(e) {
      assert e in multiset(Sorted(w, rows)) && e in rows;
      SqlIsRowGate(view, e);
    }
  }

  lemma QueryIsSorted(log: seq<Entry>, view: View, w: Want, limit: nat)
    requires Canonical(view)
    ensures Query(log, view, w, limit) == Take(Sorted(w, Filter(Wants(w), Filter(Admits(view), log))), limit)
  {
    GatedRows(log, view, w);
    SortedAdmitted(log, view, w);
    FilterAll(Admits(view), Take(Sorted(w, Filter(AdmitsSql(view, w), log)), limit));
  }

  // LIMIT counts visible rows only: the query sees nothing but the admitted rows.
  lemma QueryOverAdmitted(log: seq<Entry>, view: View, w: Want, limit: nat)
    requires Canonical(view)
    ensures Query(log, view, w, limit) == Query(Filter(Admits(view), log), EVERYONE, w, limit)
  {
    var seen := Filter(Admits(view), log);
    QueryIsSorted(log, view, w, limit);
    QueryIsSorted(seen, EVERYONE, w, limit);
    FilterAll(Admits(EVERYONE), seen);
  }

  lemma RecallIsSorted(log: seq<Entry>, view: View, hit: string -> bool, limit: nat, asOf: Ms, v: Ms)
    requires Canonical(view)
    ensures RecallAsOf(log, view, hit, limit, asOf, v)
      == Take(Filter(Mentions(hit),
        Take(Sorted(AsOf(asOf, v), Filter(Wants(AsOf(asOf, v)), Filter(Admits(view), log))), MAX_AS_OF_SCAN)), limit)
  {
    var w := AsOf(asOf, v);
    GatedRows(log, view, w);
    SortedAdmitted(log, view, w);
    FilterAll(Admits(view), Sorted(w, Filter(AdmitsSql(view, w), log)));
  }

  lemma RecallOverAdmitted(log: seq<Entry>, view: View, hit: string -> bool, limit: nat, asOf: Ms, v: Ms)
    requires Canonical(view)
    ensures RecallAsOf(log, view, hit, limit, asOf, v)
      == RecallAsOf(Filter(Admits(view), log), EVERYONE, hit, limit, asOf, v)
  {
    var seen := Filter(Admits(view), log);
    RecallIsSorted(log, view, hit, limit, asOf, v);
    RecallIsSorted(seen, EVERYONE, hit, limit, asOf, v);
    FilterAll(Admits(EVERYONE), seen);
  }

  // ---- A read returns the best of what it may return ----

  lemma {:induction false} FilterCounts(p: Entry -> bool, s: seq<Entry>, e: Entry)
    ensures multiset(Filter(p, s))[e] == if p(e) then multiset(s)[e] else 0
  {
    if s != [] {
      var front, last := s[..|s| - 1], s[|s| - 1];
      assert s == front + [last];
      FilterCounts(p, front, e);
      FilterSnoc(p, front, last);
    }
  }

  lemma FilterHas(p: Entry -> bool, s: seq<Entry>, e: Entry)
    ensures e in Filter(p, s) <==> e in s && p(e)
  {
    FilterCounts(p, s, e);
    assert e in Filter(p, s) <==> e in multiset(Filter(p, s));
    assert e in s <==> e in multiset(s);
  }

  // `out` is the best `limit` rows of `found`, best first.
  ghost predicate Top(w: Want, found: seq<Entry>, limit: nat, out: seq<Entry>) {
    && |out| == (if limit < |found| then limit else |found|)
    && Ordered(w, out) && multiset(out) <= multiset(found)
    && forall r, x :: r in out && x in multiset(found) - multiset(out) ==> InOrder(w, r, x)
  }

  lemma SplitMembers(s: seq<Entry>, k: nat)
    requires k <= |s|
    ensures multiset(s) - multiset(s[..k]) == multiset(s[k..]) && multiset(s[..k]) <= multiset(s)
  {
    assert s == s[..k] + s[k..];
  }

  lemma EarlierInOrder(w: Want, s: seq<Entry>, k: nat, r: Entry, x: Entry)
    requires Ordered(w, s) && k <= |s| && r in s[..k] && x in s[k..]
    ensures InOrder(w, r, x)
  {
    var i :| 0 <= i < k && s[i] == r;
    var j :| k <= j < |s| && s[j] == x;
  }

  lemma SameSize(a: seq<Entry>, b: seq<Entry>)
    requires multiset(a) == multiset(b)
    ensures |a| == |b|
  {
    assert |multiset(a)| == |a| && |multiset(b)| == |b|;
  }

  lemma FrontOrdered(w: Want, s: seq<Entry>, k: nat)
    requires Ordered(w, s) && k <= |s|
    ensures Ordered(w, s[..k])
  {
  }

  lemma TopOfOrdered(w: Want, found: seq<Entry>, sorted: seq<Entry>, limit: nat)
    requires Ordered(w, sorted) && multiset(sorted) == multiset(found)
    ensures Top(w, found, limit, Take(sorted, limit))
  {
    var k := if limit < |sorted| then limit else |sorted|;
    SameSize(sorted, found);
    assert Take(sorted, limit) == sorted[..k];
    SplitMembers(sorted, k);
    FrontOrdered(w, sorted, k);
    forall r, x | r in sorted[..k] && x in multiset(found) - multiset(sorted[..k]) ensures InOrder(w, r, x) {
      assert x in multiset(sorted[k..]);
      EarlierInOrder(w, sorted, k, r, x);
    }
  }

  // The rows a query is about: those it asks for, among those the reader may see.
  function Found(log: seq<Entry>, view: View, w: Want): seq<Entry> {
    Filter(Wants(w), Filter(Admits(view), log))
  }

  lemma FoundAre(log: seq<Entry>, view: View, w: Want, e: Entry)
    ensures e in Found(log, view, w) <==> e in log && RowOk(view, e) && Where(w, e)
  {
    FilterHas(Admits(view), log, e);
    FilterHas(Wants(w), Filter(Admits(view), log), e);
  }

  // Every query returns the best `limit` of the visible rows it asks for.
  lemma QueryIsTop(log: seq<Entry>, view: View, w: Want, limit: nat)
    requires Canonical(view)
    ensures Top(w, Found(log, view, w), limit, Query(log, view, w, limit))
  {
    QueryIsSorted(log, view, w, limit);
    SortedIsOrdered(w, Found(log, view, w));
    TopOfOrdered(w, Found(log, view, w), Sorted(w, Found(log, view, w)), limit);
  }

  lemma TopOne(w: Want, found: seq<Entry>, out: seq<Entry>, e: Entry)
    requires Top(w, found, 1, out) && e in found
    ensures out != [] && (e == out[0] || InOrder(w, out[0], e))
  {
    if e != out[0] {
      assert out == [out[0]] && e in multiset(found);
      assert multiset(out)[e] == 0 && e in multiset(found) - multiset(out);
    }
  }

  lemma TopIsFound(w: Want, found: seq<Entry>, limit: nat, out: seq<Entry>, e: Entry)
    requires Top(w, found, limit, out) && e in out
    ensures e in found
  {
    assert e in multiset(out) && e in multiset(found);
  }

  // The latest save a reader is told of is that of the newest row it may see.
  lemma LatestSaveIsNewest(log: seq<Entry>, view: View)
    requires Canonical(view)
    ensures LatestSave(log, view).None? <==> forall e :: e in log ==> !RowOk(view, e)
    ensures LatestSave(log, view).Some? ==> var t := LatestSave(log, view).value;
      && (exists e :: e in log && RowOk(view, e) && e.systemFrom == t)
      && forall e :: e in log && RowOk(view, e) ==> e.systemFrom <= t
  {
    var found, newest := Found(log, view, Anything), Query(log, view, Anything, 1);
    QueryIsTop(log, view, Anything, 1);
    forall e | e in log && RowOk(view, e) ensures newest != [] && e.systemFrom <= newest[0].systemFrom {
      FoundAre(log, view, Anything, e);
      TopOne(Anything, found, newest, e);
    }
    if newest != [] {
      TopIsFound(Anything, found, 1, newest, newest[0]);
      FoundAre(log, view, Anything, newest[0]);
    }
  }

  lemma QueryFinds(log: seq<Entry>, view: View, w: Want, limit: nat, i: nat)
    requires Canonical(view) && limit > 0 && i < |log| && RowOk(view, log[i]) && Where(w, log[i])
    ensures Query(log, view, w, limit) != []
  {
    QueryIsTop(log, view, w, limit);
    FoundAre(log, view, w, log[i]);
  }

  lemma QueryMisses(log: seq<Entry>, view: View, w: Want, limit: nat)
    requires Canonical(view) && forall i :: 0 <= i < |log| ==> !Where(w, log[i])
    ensures Query(log, view, w, limit) == []
  {
    QueryIsTop(log, view, w, limit);
    var found := Found(log, view, w);
    if found != [] { FoundAre(log, view, w, found[0]); }
  }

  // Queries by kind compare stored texts, so a put that only cuts off the end of an older record
  // can make its beginning appear among the results.
  lemma RemainderChangesKind(now: Ms, limit: nat)
    requires limit > 0
    ensures var row, e, w := Sample("a", 0, None).(kind := "incident"), Sample("b", 10, None),
        OfKind("incident_summary", 5);
      && Listing([row], RecordOf(e), [0]) && !Covers(e, 5)
      && Query([row], EVERYONE, w, limit) == [] && Query(PutLog([row], [0], e, now), EVERYONE, w, limit) != []
  {
    var row, e, w := Sample("a", 0, None).(kind := "incident"), Sample("b", 10, None), OfKind("incident_summary", 5);
    assert "a"[0] != "b"[0] && |"incident"| != |"incident_summary"|;
    IncidentIsRespelled();
    var j := PieceAdded([row], [0], Assert(e), now, 0, Before(row, 10)[0]);
    QueryMisses([row], EVERYONE, w, limit);
    QueryFinds(PutLog([row], [0], e, now), EVERYONE, w, limit, j);
  }

  lemma OrderedSnoc(w: Want, s: seq<Entry>, e: Entry)
    requires Ordered(w, s) && forall x :: x in s ==> InOrder(w, x, e)
    ensures Ordered(w, s + [e])
  {
  }

  lemma {:induction false} FilterOrdered(w: Want, p: Entry -> bool, s: seq<Entry>)
    requires Ordered(w, s)
    ensures Ordered(w, Filter(p, s))
  {
    if s != [] {
      var front, last := s[..|s| - 1], s[|s| - 1];
      assert s == front + [last];
      FilterOrdered(w, p, front);
      FilterMembers(p, front);
      FilterSnoc(p, front, last);
      forall e | e in Filter(p, front) ensures InOrder(w, e, last) {
        var i :| 0 <= i < |front| && front[i] == e;
        assert s[i] == e;
      }
      OrderedSnoc(w, Filter(p, front), last);
    }
  }

  // An as-of recall scans the best visible rows of its slice, up to the cap, and returns the best
  // `limit` of those that match.
  lemma RecallIsTop(log: seq<Entry>, view: View, hit: string -> bool, limit: nat, asOf: Ms, v: Ms)
    returns (scanned: seq<Entry>)
    requires Canonical(view)
    ensures Top(AsOf(asOf, v), Found(log, view, AsOf(asOf, v)), MAX_AS_OF_SCAN, scanned)
    ensures Top(AsOf(asOf, v), Filter(Mentions(hit), scanned), limit, RecallAsOf(log, view, hit, limit, asOf, v))
  {
    var w, found := AsOf(asOf, v), Found(log, view, AsOf(asOf, v));
    var sorted := Sorted(w, found);
    scanned := Take(sorted, MAX_AS_OF_SCAN);
    RecallIsSorted(log, view, hit, limit, asOf, v);
    SortedIsOrdered(w, found);
    TopOfOrdered(w, found, sorted, MAX_AS_OF_SCAN);
    FilterOrdered(w, Mentions(hit), scanned);
    TopOfOrdered(w, Filter(Mentions(hit), scanned), Filter(Mentions(hit), scanned), limit);
  }

  // ---- The scope fence ----

  // A write confined to one scope.
  predicate ConfinedWrite(w: Write, ws: string) {
    match w
    case Put(e) => e.scope == ws
    case Forget(_, within) => within == Some(ws)
    case Invalidate(_, _, within) => within == Some(ws)
    case _ => true
  }

  // Every row of another scope is identical, and every new row is in `ws`.
  ghost predicate Confined(log: seq<Entry>, after: seq<Entry>, ws: string) {
    && |log| <= |after|
    && (forall i :: 0 <= i < |log| ==> after[i] == log[i] || (log[i].scope == ws && after[i].scope == ws))
    && (forall j :: |log| <= j < |after| ==> after[j].scope == ws)
  }

  lemma StepConfined(s: Tables, ev: Event, ws: string)
    requires Enabled(s, ev) && ConfinedWrite(ev.write, ws)
    ensures Confined(s.log, Apply(s, ev).log, ws)
  {
    if Edits(ev.write) {
      RewriteConfined(s.log, SelectionOf(ev.write), ev.ids, EditOf(ev.write), ev.now);
      StepStamped(s, ev);
    }
  }

  lemma {:induction false} RunConfined(s: Tables, evs: seq<Event>, ws: string)
    requires Legal(s, evs) && forall k :: 0 <= k < |evs| ==> ConfinedWrite(evs[k].write, ws)
    ensures Confined(s.log, Run(s, evs).log, ws)
    decreases |evs|
  {
    if evs != [] {
      StepConfined(s, evs[0], ws);
      RunConfined(Apply(s, evs[0]), evs[1..], ws);
    }
  }

  predicate FencedOff(view: View, ws: string) {
    view.scopes.Some? && ws != "" && ws !in view.scopes.value
  }

  // What a filter that takes no row of `ws` selects stays as it was.
  lemma {:induction false} FilterConfined(p: Entry -> bool, log: seq<Entry>, after: seq<Entry>, ws: string)
    requires Confined(log, after, ws) && forall e: Entry :: e.scope == ws ==> !p(e)
    ensures Filter(p, after) == Filter(p, log)
    decreases |after|
  {
    if after != [] {
      var front, last := after[..|after| - 1], after[|after| - 1];
      assert after == front + [last];
      FilterSnoc(p, front, last);
      if |after| > |log| {
        FilterConfined(p, log, front, ws);
      } else {
        var n := |log| - 1;
        assert log == log[..n] + [log[n]];
        FilterSnoc(p, log[..n], log[n]);
        FilterConfined(p, log[..n], front, ws);
      }
    }
  }

  lemma SameAdmitted(log: seq<Entry>, after: seq<Entry>, view: View, ws: string)
    requires Confined(log, after, ws) && FencedOff(view, ws)
    ensures Filter(Admits(view), after) == Filter(Admits(view), log)
  {
    FilterConfined(Admits(view), log, after, ws);
  }

  // Whatever is written in a scope a reader may not see, none of its reads changes.
  lemma FencedReads(s: Tables, evs: seq<Event>, ws: string, view: View, w: Want, limit: nat)
    requires Legal(s, evs) && forall k :: 0 <= k < |evs| ==> ConfinedWrite(evs[k].write, ws)
    requires Canonical(view) && FencedOff(view, ws)
    ensures Query(Run(s, evs).log, view, w, limit) == Query(s.log, view, w, limit)
    ensures LatestSave(Run(s, evs).log, view) == LatestSave(s.log, view)
  {
    RunConfined(s, evs, ws);
    SameAdmitted(s.log, Run(s, evs).log, view, ws);
    QueryOverAdmitted(s.log, view, w, limit);
    QueryOverAdmitted(Run(s, evs).log, view, w, limit);
    QueryOverAdmitted(s.log, view, Anything, 1);
    QueryOverAdmitted(Run(s, evs).log, view, Anything, 1);
  }

  lemma FencedRecall(s: Tables, evs: seq<Event>, ws: string, view: View, hit: string -> bool, limit: nat, asOf: Ms,
      v: Ms)
    requires Legal(s, evs) && forall k :: 0 <= k < |evs| ==> ConfinedWrite(evs[k].write, ws)
    requires Canonical(view) && FencedOff(view, ws)
    ensures RecallAsOf(Run(s, evs).log, view, hit, limit, asOf, v) == RecallAsOf(s.log, view, hit, limit, asOf, v)
  {
    RunConfined(s, evs, ws);
    SameAdmitted(s.log, Run(s, evs).log, view, ws);
    RecallOverAdmitted(s.log, view, hit, limit, asOf, v);
    RecallOverAdmitted(Run(s, evs).log, view, hit, limit, asOf, v);
  }

  // ---- Answers about the past are final ----

  // A row as recorded, whether or not it has been closed since.
  function Recorded(e: Entry): Entry {
    e.(systemTo := None)
  }

  function RecordedAll(s: seq<Entry>): seq<Entry> {
    seq(|s|, k requires 0 <= k < |s| => Recorded(s[k]))
  }

  // `p` holds of a row and of its recorded form alike.
  ghost predicate Timeproof(p: Entry -> bool) {
    forall e :: p(e) <==> p(Recorded(e))
  }

  lemma MentionsTimeproof(hit: string -> bool)
    ensures Timeproof(Mentions(hit))
  {
    forall e ensures Mentions(hit)(e) <==> Mentions(hit)(Recorded(e)) {
      assert IndexedText(e) == IndexedText(Recorded(e));
    }
  }

  lemma RecordedSnoc(s: seq<Entry>, e: Entry)
    ensures RecordedAll(s + [e]) == RecordedAll(s) + [Recorded(e)]
  {
  }

  lemma {:induction false} FilterRecorded(p: Entry -> bool, s: seq<Entry>)
    requires Timeproof(p)
    ensures RecordedAll(Filter(p, s)) == Filter(p, RecordedAll(s))
  {
    if s != [] {
      var front, last := s[..|s| - 1], s[|s| - 1];
      assert s == front + [last];
      FilterRecorded(p, front);
      FilterSnoc(p, front, last);
      RecordedSnoc(front, last);
      RecordedSnoc(Filter(p, front), last);
      FilterSnoc(p, RecordedAll(front), Recorded(last));
    }
  }

  lemma {:induction false} PlaceRecorded(w: Want, e: Entry, s: seq<Entry>)
    ensures RecordedAll(Place(w, e, s)) == Place(w, Recorded(e), RecordedAll(s))
  {
    if s != [] {
      PlaceRecorded(w, e, s[1..]);
      assert RecordedAll(s)[1..] == RecordedAll(s[1..]);
    }
  }

  lemma {:induction false} SortedRecorded(w: Want, s: seq<Entry>)
    ensures RecordedAll(Sorted(w, s)) == Sorted(w, RecordedAll(s))
  {
    if s != [] {
      var front := s[..|s| - 1];
      SortedRecorded(w, front);
      PlaceRecorded(w, s[|s| - 1], Sorted(w, front));
      assert RecordedAll(s)[..|s| - 1] == RecordedAll(front);
    }
  }

  // The slice holds the same rows before and after.
  ghost predicate SameSlice(log: seq<Entry>, after: seq<Entry>, asOf: Ms, v: Ms) {
    && |log| <= |after|
    && (forall i :: 0 <= i < |log| ==>
      Recorded(after[i]) == Recorded(log[i]) && InSlice(after[i], asOf, v) == InSlice(log[i], asOf, v))
    && (forall j :: |log| <= j < |after| ==> !InSlice(after[j], asOf, v))
  }

  lemma SlicePoint(a: Entry, b: Entry, view: View, asOf: Ms, v: Ms)
    requires Recorded(a) == Recorded(b) && InSlice(a, asOf, v) == InSlice(b, asOf, v)
    ensures AdmitsSql(view, AsOf(asOf, v))(a) == AdmitsSql(view, AsOf(asOf, v))(b)
  {
  }

  lemma FilterRecordedSnoc(p: Entry -> bool, f: seq<Entry>, g: seq<Entry>, x: Entry, y: Entry)
    requires p(x) == p(y) && Recorded(x) == Recorded(y) && RecordedAll(Filter(p, f)) == RecordedAll(Filter(p, g))
    ensures RecordedAll(Filter(p, f + [x])) == RecordedAll(Filter(p, g + [y]))
  {
    if p(x) {
      FilterTakes(p, f, x);
      FilterTakes(p, g, y);
      RecordedSnoc(Filter(p, f), x);
      RecordedSnoc(Filter(p, g), y);
    } else {
      FilterSkips(p, f, x);
      FilterSkips(p, g, y);
    }
  }

  lemma {:induction false} SliceRecorded(log: seq<Entry>, after: seq<Entry>, view: View, asOf: Ms, v: Ms)
    requires SameSlice(log, after, asOf, v)
    ensures RecordedAll(Filter(AdmitsSql(view, AsOf(asOf, v)), after))
      == RecordedAll(Filter(AdmitsSql(view, AsOf(asOf, v)), log))
    decreases |after|
  {
    if after != [] {
      var p, m := AdmitsSql(view, AsOf(asOf, v)), |after| - 1;
      assert after == after[..m] + [after[m]];
      if |after| > |log| {
        SliceRecorded(log, after[..m], view, asOf, v);
        FilterSkips(p, after[..m], after[m]);
      } else {
        assert log == log[..m] + [log[m]];
        SlicePoint(after[m], log[m], view, asOf, v);
        SliceRecorded(log[..m], after[..m], view, asOf, v);
        FilterRecordedSnoc(p, after[..m], log[..m], after[m], log[m]);
      }
    }
  }

  lemma TakeRecorded(s: seq<Entry>, n: nat)
    ensures RecordedAll(Take(s, n)) == Take(RecordedAll(s), n)
  {
  }

  function Pipeline(rows: seq<Entry>, view: View, hit: string -> bool, limit: nat, w: Want): seq<Entry> {
    Take(Filter(Mentions(hit), Take(Filter(Admits(view), Sorted(w, rows)), MAX_AS_OF_SCAN)), limit)
  }

  lemma RecallPipeline(rows: seq<Entry>, view: View, hit: string -> bool, limit: nat, asOf: Ms, v: Ms)
    ensures RecordedAll(Pipeline(rows, view, hit, limit, AsOf(asOf, v)))
      == Pipeline(RecordedAll(rows), view, hit, limit, AsOf(asOf, v))
  {
    var sorted := Sorted(AsOf(asOf, v), rows);
    var seen := Filter(Admits(view), sorted);
    SortedRecorded(AsOf(asOf, v), rows);
    FilterRecorded(Admits(view), sorted);
    TakeRecorded(seen, MAX_AS_OF_SCAN);
    MentionsTimeproof(hit);
    FilterRecorded(Mentions(hit), Take(seen, MAX_AS_OF_SCAN));
    TakeRecorded(Filter(Mentions(hit), Take(seen, MAX_AS_OF_SCAN)), limit);
  }

  // The pipeline after the slice never looks at when a row was closed.
  lemma RecallRecorded(a: seq<Entry>, b: seq<Entry>, view: View, hit: string -> bool, limit: nat, asOf: Ms, v: Ms)
    requires RecordedAll(Filter(AdmitsSql(view, AsOf(asOf, v)), a))
      == RecordedAll(Filter(AdmitsSql(view, AsOf(asOf, v)), b))
    ensures RecordedAll(RecallAsOf(a, view, hit, limit, asOf, v))
      == RecordedAll(RecallAsOf(b, view, hit, limit, asOf, v))
  {
    RecallPipeline(Filter(AdmitsSql(view, AsOf(asOf, v)), a), view, hit, limit, asOf, v);
    RecallPipeline(Filter(AdmitsSql(view, AsOf(asOf, v)), b), view, hit, limit, asOf, v);
  }

  // What the store answers as of a time, it answers ever after: every run of later-stamped
  // writes leaves the same rows in the same order, apart from when they were closed.
  lemma RecallIsFinal(s: Tables, evs: seq<Event>, view: View, hit: string -> bool, limit: nat, asOf: Ms, v: Ms)
    requires Legal(s, evs) && forall k :: 0 <= k < |evs| ==> asOf < evs[k].now
    ensures RecordedAll(RecallAsOf(Run(s, evs).log, view, hit, limit, asOf, v))
      == RecordedAll(RecallAsOf(s.log, view, hit, limit, asOf, v))
  {
    var log, after := s.log, Run(s, evs).log;
    RunExtends(s, evs);
    RunFreezesPast(s, evs, asOf, v);
    forall i | 0 <= i < |log|
      ensures Recorded(after[i]) == Recorded(log[i]) && InSlice(after[i], asOf, v) == InSlice(log[i], asOf, v)
    {
      assert i in SliceRows(after, asOf, v) <==> i in SliceRows(log, asOf, v);
    }
    forall j | |log| <= j < |after| ensures !InSlice(after[j], asOf, v) {
      assert j !in SliceRows(log, asOf, v);
    }
    SliceRecorded(log, after, view, asOf, v);
    RecallRecorded(after, log, view, hit, limit, asOf, v);
  }

  // ---- Which uris a reader may walk through ----

  // `a` counts as newer than `b`, an earlier row: open rows first, then system time, then id.
  predicate Newer(a: Entry, b: Entry) {
    (Open(a) && !Open(b)) || (Open(a) == Open(b) && a.systemFrom >= b.systemFrom)
  }

  function Newest(log: seq<Entry>, uri: string): Option<Entry> {
    if log == [] then None
    else
      var last, before := log[|log| - 1], Newest(log[..|log| - 1], uri);
      if last.uri == uri && (before.None? || Newer(last, before.value)) then Some(last) else before
  }

  // The traversal gate: a visible open row decides; failing that the newest row ever, if it is
  // closed; a uri never written is visible.
  predicate ScopeVisible(log: seq<Entry>, view: View, uri: string) {
    || view == EVERYONE
    || (exists i :: 0 <= i < |log| && log[i].uri == uri && Open(log[i]) && SqlOk(view, log[i]))
    || match Newest(log, uri)
       case None => true
       case Some(r) => !Open(r) && RowOk(view, r)
  }

  lemma {:induction false} NewestIsOpen(log: seq<Entry>, uri: string)
    requires Live(log, uri)
    ensures Newest(log, uri).Some? && Open(Newest(log, uri).value)
  {
    var front, last := log[..|log| - 1], log[|log| - 1];
    if !(Open(last) && last.uri == uri) {
      var i :| 0 <= i < |log| && Open(log[i]) && log[i].uri == uri;
      assert front[i] == log[i];
      NewestIsOpen(front, uri);
    }
  }

  // A live uri is on a reader's graph exactly when one of its open rows passes the row gate: a
  // newer row the reader may not see hides no older one, and shows it nothing.
  lemma LiveUriVisible(log: seq<Entry>, view: View, uri: string)
    requires Canonical(view) && Live(log, uri)
    ensures ScopeVisible(log, view, uri) <==>
      exists i :: 0 <= i < |log| && log[i].uri == uri && Open(log[i]) && RowOk(view, log[i])
  {
    NewestIsOpen(log, uri);
    forall i | 0 <= i < |log| ensures SqlOk(view, log[i]) <==> RowOk(view, log[i]) { SqlIsRowGate(view, log[i]); }
    if view == EVERYONE {
      var i :| 0 <= i < |log| && Open(log[i]) && log[i].uri == uri;
      assert RowOk(view, log[i]);
    }
  }

  // `i` is the last recorded row of a uri: the greatest system time, then the greatest id.
  ghost predicate LastRecorded(log: seq<Entry>, uri: string, i: nat) {
    && i < |log| && log[i].uri == uri
    && forall j :: 0 <= j < |log| && log[j].uri == uri ==>
      log[j].systemFrom < log[i].systemFrom || (log[j].systemFrom == log[i].systemFrom && j <= i)
  }

  lemma {:induction false} NewestOfDead(log: seq<Entry>, uri: string) returns (at: Option<nat>)
    requires !Live(log, uri)
    ensures at.None? ==> Newest(log, uri).None? && forall j :: 0 <= j < |log| ==> log[j].uri != uri
    ensures at.Some? ==> LastRecorded(log, uri, at.value) && Newest(log, uri) == Some(log[at.value])
  {
    at := None;
    if log != [] {
      var front, last := log[..|log| - 1], log[|log| - 1];
      assert forall j :: 0 <= j < |front| ==> front[j] == log[j];
      var earlier := NewestOfDead(front, uri);
      if last.uri == uri && (earlier.None? || Newer(last, front[earlier.value])) {
        at := Some(|log| - 1);
      } else {
        at := earlier;
      }
    }
  }

  // A uri without open rows is judged by the last row recorded for it, and one never written is
  // on everyone's graph.
  lemma DeadUriVisible(log: seq<Entry>, view: View, uri: string)
    requires !Live(log, uri)
    ensures ScopeVisible(log, view, uri) <==> forall i: nat :: LastRecorded(log, uri, i) ==> RowOk(view, log[i])
  {
    var at := NewestOfDead(log, uri);
    if at.Some? {
      assert forall j: nat :: LastRecorded(log, uri, j) ==> j == at.value;
      assert !Open(log[at.value]);
    }
  }

  // Whatever `get` hydrates, the traversals may reach.
  lemma FetchedIsVisible(log: seq<Entry>, view: View, uri: string, now: Ms)
    requires Canonical(view) && Query(log, view, ByUri(uri, now), 1) != []
    ensures ScopeVisible(log, view, uri)
  {
    var rows := Filter(Wants(ByUri(uri, now)), Filter(Admits(view), log));
    QueryIsSorted(log, view, ByUri(uri, now), 1);
    SortedMembers(ByUri(uri, now), rows);
    var e := Sorted(ByUri(uri, now), rows)[0];
    assert e in multiset(Sorted(ByUri(uri, now), rows)) && e in rows;
    FilterMembers(Wants(ByUri(uri, now)), Filter(Admits(view), log));
    FilterMembers(Admits(view), log);
    var i :| 0 <= i < |log| && log[i] == e;
    SqlIsRowGate(view, e);
  }
}
