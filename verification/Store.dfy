// The store of src/sqlite.rs as an object: three tables that the writes edit in place, row by
// row, in whatever order the database lists the rows. Every method is tied to the transition
// of `Runs` it performs, so everything proved about runs holds of sequences of calls.
module Store {
  import opened Records
  import opened Timeline
  import opened Beliefs
  import opened Runs

  datatype FtsRow = FtsRow(idref: nat, text: string)

  // The index holds each open row's id and text once, and nothing else.
  ghost predicate Mirrors(log: seq<Entry>, fts: multiset<FtsRow>) {
    forall d: FtsRow :: fts[d] ==
      if d.idref < |log| && Open(log[d.idref]) && d.text == IndexedText(log[d.idref]) then 1 else 0
  }

  function RowIds(rows: seq<(nat, Entry)>): seq<nat> {
    seq(|rows|, k requires 0 <= k < |rows| => rows[k].0)
  }

  // Rows as a query hands them over: id and decoded content.
  ghost predicate Fetched(log: seq<Entry>, rows: seq<(nat, Entry)>) {
    && Distinct(RowIds(rows))
    && forall k :: 0 <= k < |rows| ==> rows[k].0 < |log| && rows[k].1 == ReadBack(log[rows[k].0])
  }

  predicate SaysAlready(r: Entry, e: Entry) {
    r.body == e.body && r.validFrom <= e.validFrom && Vto(r.validTo) >= Vto(e.validTo)
  }

  // ---- One more row visited ----

  lemma NextVisit(log: seq<Entry>, rows: seq<(nat, Entry)>, k: nat)
    requires Fetched(log, rows) && k < |rows|
    ensures rows[k].0 < |log| && rows[k].1 == ReadBack(log[rows[k].0])
    ensures rows[k].0 !in RowIds(rows)[..k] && RowIds(rows)[..k + 1] == RowIds(rows)[..k] + [rows[k].0]
  {
    assert forall l :: 0 <= l < k ==> RowIds(rows)[l] != RowIds(rows)[k];
  }

  lemma VisitUntouched(log: seq<Entry>, ids: seq<nat>, ed: Edit, now: Ms, id: nat)
    requires id < |log| && !Touches(ed, log[id])
    ensures Rewrite(log, ids + [id], ed, now) == Rewrite(log, ids, ed, now)
  {
    assert (ids + [id])[..|ids|] == ids;
  }

  lemma PiecesSnoc(log: seq<Entry>, ids: seq<nat>, ed: Edit, now: Ms, id: nat)
    ensures Pieces(log, ids + [id], ed, now) == Pieces(log, ids, ed, now) + Replacements(log, id, ed, now)
  {
    assert (ids + [id])[..|ids|] == ids;
  }

  lemma CloseRowsSnoc(log: seq<Entry>, ids: seq<nat>, ed: Edit, now: Ms, id: nat)
    requires id < |log| && Touches(ed, log[id])
    ensures CloseRows(log, ids + [id], ed, now) == CloseRows(log, ids, ed, now)[id := Closed(log[id], now)]
  {
    assert forall i :: i in ids + [id] <==> i in ids || i == id;
  }

  lemma UpdateThenAppend<T>(a: seq<T>, b: seq<T>, c: seq<T>, i: nat, x: T)
    requires i < |a|
    ensures (a + b)[i := x] + c == a[i := x] + (b + c)
  {
  }

  lemma VisitTouched(log: seq<Entry>, ids: seq<nat>, ed: Edit, now: Ms, id: nat)
    requires id < |log| && Touches(ed, log[id])
    ensures id < |Rewrite(log, ids, ed, now)|
    ensures Rewrite(log, ids + [id], ed, now)
      == Rewrite(log, ids, ed, now)[id := Closed(log[id], now)] + InsertedAll(Kept(ed, log[id]), now)
  {
    PiecesSnoc(log, ids, ed, now, id);
    CloseRowsSnoc(log, ids, ed, now, id);
    UpdateThenAppend(CloseRows(log, ids, ed, now), Pieces(log, ids, ed, now), InsertedAll(Kept(ed, log[id]), now), id,
      Closed(log[id], now));
  }

  lemma NotYetVisited(log: seq<Entry>, ids: seq<nat>, ed: Edit, now: Ms, id: nat)
    requires id < |log| && id !in ids
    ensures id < |Rewrite(log, ids, ed, now)| && Rewrite(log, ids, ed, now)[id] == log[id]
  {
  }

  function TouchCount(log: seq<Entry>, ids: seq<nat>, ed: Edit): nat {
    if ids == [] then 0
    else
      var last := ids[|ids| - 1];
      TouchCount(log, ids[..|ids| - 1], ed) + if last < |log| && Touches(ed, log[last]) then 1 else 0
  }

  ghost function TouchedAmong(log: seq<Entry>, ids: seq<nat>, ed: Edit): set<nat> {
    set i | i in ids && i < |log| && Touches(ed, log[i])
  }

  lemma {:induction false} TouchCountIsSize(log: seq<Entry>, ids: seq<nat>, ed: Edit)
    requires Distinct(ids)
    ensures TouchCount(log, ids, ed) == |TouchedAmong(log, ids, ed)|
  {
    if ids == [] {
      assert TouchedAmong(log, ids, ed) == {};
    } else {
      var front, last := ids[..|ids| - 1], ids[|ids| - 1];
      TouchCountIsSize(log, front, ed);
      assert forall i :: i in ids <==> i in front || i == last;
      assert last !in front;
      if last < |log| && Touches(ed, log[last]) {
        assert TouchedAmong(log, ids, ed) == TouchedAmong(log, front, ed) + {last};
      } else {
        assert TouchedAmong(log, ids, ed) == TouchedAmong(log, front, ed);
      }
    }
  }

  lemma ReachingCounted(log: seq<Entry>, sel: Selection, ids: seq<nat>, cut: Ms)
    requires Listing(log, sel, ids)
    ensures TouchCount(log, ids, Truncate(cut)) == |Reaching(log, sel, cut)|
  {
    TouchCountIsSize(log, ids, Truncate(cut));
    assert TouchedAmong(log, ids, Truncate(cut)) == Reaching(log, sel, cut);
  }

  lemma {:induction false} AnyTouched(log: seq<Entry>, ids: seq<nat>, ed: Edit)
    ensures TouchCount(log, ids, ed) > 0 <==> TouchesAny(log, ids, ed)
  {
    if ids != [] {
      var front, last := ids[..|ids| - 1], ids[|ids| - 1];
      AnyTouched(log, front, ed);
      assert last in ids && forall i :: i in ids <==> i in front || i == last;
    }
  }

  lemma {:induction false} AllTouched(log: seq<Entry>, ids: seq<nat>)
    requires forall i :: i in ids ==> i < |log|
    ensures TouchCount(log, ids, Retract) == |ids|
  {
    if ids != [] {
      var front := ids[..|ids| - 1];
      assert forall i :: i in front ==> i in ids;
      assert ids[|ids| - 1] in ids;
      AllTouched(log, front);
    }
  }

  lemma OpenRowsCounted(log: seq<Entry>, sel: Selection, ids: seq<nat>)
    requires Listing(log, sel, ids)
    ensures |ids| == |OpenRows(log, sel)|
  {
    AllTouched(log, ids);
    TouchCountIsSize(log, ids, Retract);
    assert TouchedAmong(log, ids, Retract) == OpenRows(log, sel);
  }

  lemma DanglingIsRest(log: seq<Entry>, edges: set<Edge>, dangling: set<Edge>)
    requires forall e :: e in dangling <==> e in edges && !LiveEdge(log, e)
    ensures edges - dangling == (set e | e in edges && LiveEdge(log, e)) && edges - (edges - dangling) == dangling
  {
  }

  class SqliteStore {
    var entries: seq<Entry>
    var fts: multiset<FtsRow>
    var edges: set<Edge>

    ghost predicate Valid()
      reads this
    {
      Mirrors(entries, fts)
    }

    ghost function State(): Tables
      reads this
    {
      Tables(entries, edges)
    }

    constructor ()
      ensures Valid() && State() == Tables([], {})
    {
      entries, fts, edges := [], multiset{}, {};
    }

    // ---- Row access ----

    // The open rows a selection names, decoded, in no particular order.
    method CurrentRows(sel: Selection) returns (rows: seq<(nat, Entry)>)
      ensures Listing(entries, sel, RowIds(rows))
      ensures Fetched(entries, rows)
    {
      rows := [];
      var todo := set i: nat | i < |entries| && Open(entries[i]) && Selects(sel, entries[i]);
      ghost var all := todo;
      while todo != {}
        invariant todo <= all && forall i :: i in all <==> i in todo || i in RowIds(rows)
        invariant forall k :: 0 <= k < |rows| ==> rows[k].0 in all && rows[k].0 !in todo
        invariant forall k :: 0 <= k < |rows| ==> rows[k].1 == ReadBack(entries[rows[k].0])
        invariant Distinct(RowIds(rows))
      {
        var i :| i in todo;
        ghost var before := RowIds(rows);
        rows := rows + [(i, ReadBack(entries[i]))];
        assert RowIds(rows) == before + [i];
        todo := todo - {i};
      }
    }

    method DeleteFromIndex(id: nat)
      modifies this`fts
      ensures forall d: FtsRow :: fts[d] == if d.idref == id then 0 else old(fts)[d]
    {
      while exists d :: d in fts && d.idref == id
        invariant forall d: FtsRow :: if d.idref == id then fts[d] <= old(fts)[d] else fts[d] == old(fts)[d]
        decreases |fts|
      {
        var d :| d in fts && d.idref == id;
        fts := fts - multiset{d};
      }
    }

    method CloseVersion(id: nat, now: Ms)
      requires Valid() && id < |entries|
      modifies this`entries, this`fts
      ensures Valid() && entries == old(entries)[id := Closed(old(entries)[id], now)]
    {
      entries := entries[id := Closed(entries[id], now)];
      DeleteFromIndex(id);
    }

    method InsertVersion(e: Entry, now: Ms)
      requires Valid()
      modifies this`entries, this`fts
      ensures Valid() && entries == old(entries) + [Inserted(e, now)]
    {
      var id := |entries|;
      entries := entries + [Inserted(e, now)];
      fts := fts + multiset{FtsRow(id, IndexedText(e))};
    }

    method HasLiveRow(uri: string) returns (live: bool)
      ensures live == Live(entries, uri)
    {
      live := exists i :: 0 <= i < |entries| && Open(entries[i]) && entries[i].uri == uri;
    }

    method Detach(uri: string)
      modifies this`edges
      ensures edges == Detached(old(edges), uri)
    {
      edges := set e | e in edges && !(e.fromUri == uri || e.toUri == uri);
    }

    // ---- One selected row, edited in place ----

    method SplitRow(id: nat, r: Entry, e: Entry, now: Ms, ghost log: seq<Entry>, ghost ids: seq<nat>)
      requires Valid() && entries == Rewrite(log, ids, Assert(e), now)
      requires id < |log| && id !in ids && r == ReadBack(log[id]) && Overlap(r, e)
      modifies this`entries, this`fts
      ensures Valid() && entries == Rewrite(log, ids + [id], Assert(e), now)
    {
      VisitTouched(log, ids, Assert(e), now, id);
      NotYetVisited(log, ids, Assert(e), now, id);
      CloseVersion(id, now);
      if r.validFrom < e.validFrom {
        InsertVersion(r.(validTo := Some(e.validFrom)), now);
      }
      if e.validTo.Some? {
        if e.validTo.value < Vto(r.validTo) {
          InsertVersion(r.(validFrom := e.validTo.value), now);
        }
      }
    }

    method CutRow(id: nat, r: Entry, cut: Ms, now: Ms, ghost log: seq<Entry>, ghost ids: seq<nat>)
      requires Valid() && entries == Rewrite(log, ids, Truncate(cut), now)
      requires id < |log| && id !in ids && r == ReadBack(log[id]) && cut < Vto(r.validTo)
      modifies this`entries, this`fts
      ensures Valid() && entries == Rewrite(log, ids + [id], Truncate(cut), now)
    {
      VisitTouched(log, ids, Truncate(cut), now, id);
      NotYetVisited(log, ids, Truncate(cut), now, id);
      CloseVersion(id, now);
      if r.validFrom < cut {
        InsertVersion(r.(validTo := Some(cut)), now);
      }
    }

    method RetractRow(id: nat, now: Ms, ghost log: seq<Entry>, ghost ids: seq<nat>)
      requires Valid() && entries == Rewrite(log, ids, Retract, now)
      requires id < |log| && id !in ids
      modifies this`entries, this`fts
      ensures Valid() && entries == Rewrite(log, ids + [id], Retract, now)
    {
      VisitTouched(log, ids, Retract, now, id);
      NotYetVisited(log, ids, Retract, now, id);
      CloseVersion(id, now);
    }

    method AlreadyCovered(rows: seq<(nat, Entry)>, e: Entry) returns (already: bool)
      requires Listing(entries, RecordOf(e), RowIds(rows)) && Fetched(entries, rows)
      ensures already == Already(entries, e)
    {
      already := exists k :: 0 <= k < |rows| && SaysAlready(rows[k].1, e);
      if already {
        ghost var k :| 0 <= k < |rows| && SaysAlready(rows[k].1, e);
        assert RowIds(rows)[k] in RowIds(rows);
        assert CoversBody(entries[rows[k].0], e);
      }
      if Already(entries, e) {
        ghost var i: nat :| i < |entries| && CoversBody(entries[i], e);
        assert i in RowIds(rows);
        ghost var k :| 0 <= k < |rows| && RowIds(rows)[k] == i;
        assert SaysAlready(rows[k].1, e);
      }
    }

    // ---- Writes ----

    method SplitRows(rows: seq<(nat, Entry)>, e: Entry, now: Ms)
      requires Valid() && Fetched(entries, rows)
      modifies this`entries, this`fts
      ensures Valid() && entries == Rewrite(old(entries), RowIds(rows), Assert(e), now)
    {
      ghost var log, ids := entries, RowIds(rows);
      for k := 0 to |rows|
        invariant Valid() && entries == Rewrite(log, ids[..k], Assert(e), now)
      {
        var (id, r) := rows[k];
        NextVisit(log, rows, k);
        if !Overlap(r, e) {
          VisitUntouched(log, ids[..k], Assert(e), now, id);
          continue;
        }
        SplitRow(id, r, e, now, log, ids[..k]);
      }
      assert ids[..|rows|] == ids;
    }

    method Put(e: Entry, now: Ms) returns (accepted: bool, ghost ids: seq<nat>)
      requires Valid()
      modifies this
      ensures Valid() && accepted == ValidInterval(e)
      ensures Enabled(old(State()), Event(Runs.Put(e), now, ids))
      ensures State() == Apply(old(State()), Event(Runs.Put(e), now, ids))
    {
      if e.validTo.Some? && e.validTo.value <= e.validFrom {
        return false, [];
      }
      var current := CurrentRows(OfRecord(e.dedupKey, e.scope));
      accepted, ids := true, RowIds(current);
      var already := AlreadyCovered(current, e);
      if already {
        return;
      }
      SplitRows(current, e, now);
      InsertVersion(e, now);
    }

    method RetractRows(rows: seq<(nat, Entry)>, now: Ms)
      requires Valid() && Fetched(entries, rows)
      modifies this`entries, this`fts
      ensures Valid() && entries == Rewrite(old(entries), RowIds(rows), Retract, now)
    {
      ghost var log, ids := entries, RowIds(rows);
      for k := 0 to |rows|
        invariant Valid() && entries == Rewrite(log, ids[..k], Retract, now)
      {
        NextVisit(log, rows, k);
        RetractRow(rows[k].0, now, log, ids[..k]);
      }
      assert ids[..|rows|] == ids;
    }

    method ForgetIn(uri: string, within: Option<string>, now: Ms) returns (closed: nat, ghost ids: seq<nat>)
      requires Valid()
      modifies this
      ensures Valid() && closed == |OpenRows(old(entries), OfUri(uri, within))|
      ensures Enabled(old(State()), Event(Forget(uri, within), now, ids))
      ensures State() == Apply(old(State()), Event(Forget(uri, within), now, ids))
    {
      var rows := CurrentRows(OfUri(uri, within));
      ids := RowIds(rows);
      RetractRows(rows, now);
      var live := HasLiveRow(uri);
      assert rows != [] ==> ids[0] in ids;
      if rows != [] && !live {
        Detach(uri);
      }
      closed := |rows|;
      OpenRowsCounted(old(entries), OfUri(uri, within), ids);
    }

    method CutRows(rows: seq<(nat, Entry)>, cut: Ms, now: Ms) returns (n: nat)
      requires Valid() && Fetched(entries, rows)
      modifies this`entries, this`fts
      ensures Valid() && entries == Rewrite(old(entries), RowIds(rows), Truncate(cut), now)
      ensures n == TouchCount(old(entries), RowIds(rows), Truncate(cut))
    {
      ghost var log, ids := entries, RowIds(rows);
      n := 0;
      for k := 0 to |rows|
        invariant Valid() && entries == Rewrite(log, ids[..k], Truncate(cut), now)
        invariant n == TouchCount(log, ids[..k], Truncate(cut))
      {
        var (id, r) := rows[k];
        NextVisit(log, rows, k);
        assert ids[..k + 1][..k] == ids[..k];
        if Vto(r.validTo) <= cut {
          VisitUntouched(log, ids[..k], Truncate(cut), now, id);
          continue;
        }
        CutRow(id, r, cut, now, log, ids[..k]);
        n := n + 1;
      }
      assert ids[..|rows|] == ids;
    }

    method InvalidateIn(uri: string, cut: Ms, within: Option<string>, now: Ms)
      returns (affected: Option<nat>, ghost ids: seq<nat>)
      requires Valid()
      modifies this
      ensures Valid() && (affected.None? <==> cut <= 0)
      ensures affected.Some? ==> affected.value == |Reaching(old(entries), OfUri(uri, within), cut)|
      ensures Enabled(old(State()), Event(Invalidate(uri, cut, within), now, ids))
      ensures State() == Apply(old(State()), Event(Invalidate(uri, cut, within), now, ids))
    {
      if cut <= 0 {
        return None, [];
      }
      var rows := CurrentRows(OfUri(uri, within));
      ids := RowIds(rows);
      var n := CutRows(rows, cut, now);
      var live := HasLiveRow(uri);
      if n > 0 && !live {
        Detach(uri);
      }
      affected := Some(n);
      ReachingCounted(old(entries), OfUri(uri, within), ids, cut);
      AnyTouched(old(entries), ids, Truncate(cut));
    }

    method Link(e: Edge, now: Ms)
      requires Valid()
      modifies this`edges
      ensures Valid() && State() == Apply(old(State()), Event(Runs.Link(e), now, []))
    {
      edges := edges + {e};
    }

    method Unlink(e: Edge, now: Ms) returns (deleted: nat)
      requires Valid()
      modifies this`edges
      ensures Valid() && State() == Apply(old(State()), Event(Runs.Unlink(e), now, []))
      ensures deleted == |old(edges) - edges| <= 1
    {
      deleted := if e in edges then 1 else 0;
      assert edges - (edges - {e}) == if e in edges then {e} else {};
      edges := edges - {e};
    }

    method PruneDanglingEdges(now: Ms) returns (deleted: nat)
      requires Valid()
      modifies this`edges
      ensures Valid() && State() == Apply(old(State()), Event(Prune, now, []))
      ensures deleted == |old(edges) - edges|
    {
      var dangling := set e | e in edges && (!Live(entries, e.fromUri) || !Live(entries, e.toUri));
      DanglingIsRest(entries, edges, dangling);
      deleted := |dangling|;
      edges := edges - dangling;
    }
  }
}
