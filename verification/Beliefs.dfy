// What each write means, point by point in valid time, whatever the order its rows are
// visited in.
module Beliefs {
  import opened Records
  import opened Timeline

  // ---- put ----

  lemma AlreadyBelieved(log: seq<Entry>, e: Entry, i: nat, v: Ms)
    requires Disjoint(log) && i < |log| && CoversBody(log[i], e) && Covers(e, v) && ExactLog(log, v) && ExactRow(e, v)
    ensures BelievedAt(log[i], RecordOf(e), v)
    ensures forall j :: 0 <= j < |log| && BelievedAt(log[j], RecordOf(e), v) ==> j == i
    ensures ContentAt(log, RecordOf(e), v) == {Content(log[i])}
  {
  }

  lemma ContentSnoc(log: seq<Entry>, e: Entry, place: Selection, v: Ms)
    ensures ContentAt(log + [e], place, v)
      == ContentAt(log, place, v) + (if BelievedAt(e, place, v) then {Content(e)} else {})
  {
    var after := log + [e];
    forall i | 0 <= i < |log| && BelievedAt(log[i], place, v) ensures Content(log[i]) in ContentAt(after, place, v) {
      assert after[i] == log[i];
    }
    if BelievedAt(e, place, v) { assert after[|log|] == e; }
  }

  // Off the asserted interval, and for every other record, the believed content is unchanged:
  // the remainders carry the old content.
  lemma PutElsewhere(log: seq<Entry>, ids: seq<nat>, e: Entry, now: Ms, place: Selection, v: Ms)
    requires ValidInterval(e) && Listing(log, RecordOf(e), ids) && Exact(log, Assert(e), v)
    requires place.OfRecord? && (place != RecordOf(e) || !Covers(e, v))
    ensures ContentAt(PutLog(log, ids, e, now), place, v) == ContentAt(log, place, v)
  {
    if !Already(log, e) {
      var cut, after := Rewrite(log, ids, Assert(e), now), PutLog(log, ids, e, now);
      RewriteContent(log, RecordOf(e), ids, Assert(e), now, place, v);
      ContentSnoc(cut, Inserted(e, now), place, v);
      assert forall i :: 0 <= i < |log| && BelievedAt(log[i], place, v) ==>
        !(Selects(RecordOf(e), log[i]) && Erases(Assert(e), v));
    }
  }

  // A remainder repeats its row verbatim apart from the interval, exactly when the row's kind is
  // stored under a name this version writes: it reads older aliases as the kind they stood for, a
  // newer version's kind as a plain memory, and writes back what it read.
  lemma RemainderIsVerbatim(ed: Edit, r: Entry, k: Entry)
    requires k in Kept(ed, r)
    ensures k == r.(validFrom := k.validFrom, validTo := k.validTo) <==> IsKindName(r.kind)
    ensures k == r.(validFrom := k.validFrom, validTo := k.validTo, kind := Respelled(r.kind))
  {
    RespelledIff(r.kind);
  }

  lemma KindsSnoc(log: seq<Entry>, e: Entry, place: Selection, v: Ms)
    requires !BelievedAt(e, place, v)
    ensures KindsAt(log + [e], place, v) == KindsAt(log, place, v)
  {
    var after := log + [e];
    forall i | 0 <= i < |log| && BelievedAt(log[i], place, v) ensures log[i].kind in KindsAt(after, place, v) {
      assert after[i] == log[i];
    }
  }

  lemma OneKind(log: seq<Entry>, e: Entry, v: Ms, i: nat)
    requires Disjoint(log) && ExactLog(log, v) && i < |log| && BelievedAt(log[i], RecordOf(e), v) && !Covers(e, v)
    ensures KindsAt(log, RecordOf(e), v) == {log[i].kind}
    ensures KindsLeft(log, RecordOf(e), Assert(e), RecordOf(e), v) == {KindAfter(RecordOf(e), Assert(e), log[i])}
    ensures forall j :: 0 <= j < |log| && BelievedAt(log[j], RecordOf(e), v) ==> j == i
  {
  }

  // Off the asserted interval a put leaves the stored name of the record's kind alone exactly when
  // it records nothing or cuts no segment there that is stored under another name.
  lemma PutKeepsKind(log: seq<Entry>, ids: seq<nat>, e: Entry, now: Ms, v: Ms)
    requires Disjoint(log) && ValidInterval(e) && Listing(log, RecordOf(e), ids) && !Covers(e, v)
    requires ExactLog(log, v) && ExactRow(e, v)
    ensures KindsAt(PutLog(log, ids, e, now), RecordOf(e), v) == KindsAt(log, RecordOf(e), v)
      <==> Already(log, e) || forall i :: 0 <= i < |log| && BelievedAt(log[i], RecordOf(e), v) && Overlap(log[i], e) ==>
        IsKindName(log[i].kind)
  {
    if !Already(log, e) {
      RewriteKinds(log, RecordOf(e), ids, Assert(e), now, RecordOf(e), v);
      KindsSnoc(Rewrite(log, ids, Assert(e), now), Inserted(e, now), RecordOf(e), v);
      if i: nat :| i < |log| && BelievedAt(log[i], RecordOf(e), v) {
        OneKind(log, e, v, i);
        RespelledIff(log[i].kind);
      }
    }
  }

  // On the asserted interval the record's content is exactly the asserted one, unless `put`
  // recorded nothing.
  lemma PutHere(log: seq<Entry>, ids: seq<nat>, e: Entry, now: Ms, v: Ms)
    requires ValidInterval(e) && Listing(log, RecordOf(e), ids) && Covers(e, v) && Exact(log, Assert(e), v)
    requires !Already(log, e)
    ensures ContentAt(PutLog(log, ids, e, now), RecordOf(e), v) == {Content(e)}
  {
    RewriteContent(log, RecordOf(e), ids, Assert(e), now, RecordOf(e), v);
    ContentSnoc(Rewrite(log, ids, Assert(e), now), Inserted(e, now), RecordOf(e), v);
  }

  // What a put of `e` should do to the bodies believed at `v`: its own on its interval, nothing else.
  ghost predicate Updated(log: seq<Entry>, after: seq<Entry>, e: Entry, place: Selection, v: Ms) {
    BodiesAt(after, place, v) == if place == RecordOf(e) && Covers(e, v) then {e.body} else BodiesAt(log, place, v)
  }

  // `put` is a pointwise update of the believed bodies, wherever arithmetic and SQL agree.
  lemma PutBodiesExact(log: seq<Entry>, ids: seq<nat>, e: Entry, now: Ms, place: Selection, v: Ms)
    requires Disjoint(log) && ValidInterval(e) && Listing(log, RecordOf(e), ids) && place.OfRecord?
    requires ExactLog(log, v) && ExactRow(e, v)
    ensures Updated(log, PutLog(log, ids, e, now), e, place, v)
  {
    BodiesAreContents(PutLog(log, ids, e, now), place, v);
    BodiesAreContents(log, place, v);
    if place != RecordOf(e) || !Covers(e, v) {
      PutElsewhere(log, ids, e, now, place, v);
    } else if Already(log, e) {
      var i: nat :| i < |log| && CoversBody(log[i], e);
      AlreadyBelieved(log, e, i, v);
      assert Content(log[i]).body == e.body;
    } else {
      PutHere(log, ids, e, now, v);
      assert Content(e).body == e.body;
    }
  }

  // The test that suppresses a `put` compares only bodies, so a changed title, tag list or
  // importance can be dropped: exactly when a segment that covers the interval with the same
  // body has other content.
  lemma PutPublishes(log: seq<Entry>, ids: seq<nat>, e: Entry, now: Ms, v: Ms)
    requires Disjoint(log) && ValidInterval(e) && Listing(log, RecordOf(e), ids) && Covers(e, v)
    requires ExactLog(log, v) && ExactRow(e, v)
    ensures ContentAt(PutLog(log, ids, e, now), RecordOf(e), v) == {Content(e)}
      <==> forall i :: 0 <= i < |log| && CoversBody(log[i], e) ==> Content(log[i]) == Content(e)
  {
    if Already(log, e) {
      var i: nat :| i < |log| && CoversBody(log[i], e);
      AlreadyBelieved(log, e, i, v);
      forall j | 0 <= j < |log| && CoversBody(log[j], e) ensures j == i { AlreadyBelieved(log, e, j, v); }
    } else {
      PutHere(log, ids, e, now, v);
    }
  }

  // Saying the same thing twice records it once.
  lemma PutTwice(log: seq<Entry>, ids: seq<nat>, e: Entry, now: Ms, again: seq<nat>, later: Ms)
    ensures PutLog(PutLog(log, ids, e, now), again, e, later) == PutLog(log, ids, e, now)
  {
    var once := PutLog(log, ids, e, now);
    if !Already(log, e) {
      assert CoversBody(once[|once| - 1], e);
    }
  }

  // ---- How much a put writes ----

  // A remainder is left exactly where a segment straddles an end of the asserted interval.
  predicate Straddles(r: Entry, at: Ms) {
    r.validFrom < at < Vto(r.validTo)
  }

  ghost function Straddlers(log: seq<Entry>, ids: seq<nat>, at: Ms): nat {
    if ids == [] then 0
    else
      var last := ids[|ids| - 1];
      Straddlers(log, ids[..|ids| - 1], at) + if last < |log| && Straddles(log[last], at) then 1 else 0
  }

  lemma {:induction false} PiecesCounted(log: seq<Entry>, ids: seq<nat>, e: Entry, now: Ms)
    requires ValidInterval(e)
    ensures |Pieces(log, ids, Assert(e), now)|
      == Straddlers(log, ids, e.validFrom) + if e.validTo.Some? then Straddlers(log, ids, e.validTo.value) else 0
  {
    if ids != [] { PiecesCounted(log, ids[..|ids| - 1], e, now); }
  }

  lemma {:induction false} StraddlerAmong(log: seq<Entry>, ids: seq<nat>, at: Ms) returns (i: nat)
    requires Straddlers(log, ids, at) > 0
    ensures i in ids && i < |log| && Straddles(log[i], at)
  {
    var last := ids[|ids| - 1];
    if last < |log| && Straddles(log[last], at) { i := last; } else { i := StraddlerAmong(log, ids[..|ids| - 1], at); }
  }

  ghost predicate OneRecord(log: seq<Entry>, ids: seq<nat>, e: Entry) {
    forall i :: i in ids ==> i < |log| && Open(log[i]) && SameRecord(log[i], e)
  }

  lemma {:induction false} OneStraddler(log: seq<Entry>, ids: seq<nat>, e: Entry, at: Ms)
    requires Disjoint(log) && Distinct(ids) && OneRecord(log, ids, e)
    ensures Straddlers(log, ids, at) <= 1
  {
    if ids != [] {
      var front, last := ids[..|ids| - 1], ids[|ids| - 1];
      assert forall i :: i in front ==> i in ids;
      assert last in ids;
      OneStraddler(log, front, e, at);
      if Straddlers(log, front, at) > 0 && Straddles(log[last], at) {
        var i := StraddlerAmong(log, front, at);
        if i < last { assert Overlap(log[i], log[last]); } else { assert Overlap(log[last], log[i]); }
        assert false;
      }
    }
  }

  // However many segments it overlaps, a put inserts at most three versions.
  lemma PutInsertsAtMostThree(log: seq<Entry>, ids: seq<nat>, e: Entry, now: Ms)
    requires Disjoint(log) && ValidInterval(e) && Listing(log, RecordOf(e), ids)
    ensures |log| <= |PutLog(log, ids, e, now)| <= |log| + 3
  {
    PiecesCounted(log, ids, e, now);
    OneStraddler(log, ids, e, e.validFrom);
    if e.validTo.Some? { OneStraddler(log, ids, e, e.validTo.value); }
  }

  ghost function OpenRows(log: seq<Entry>, place: Selection): set<nat> {
    set i: nat | i < |log| && Open(log[i]) && Selects(place, log[i])
  }

  ghost function UpTo(lo: nat, n: nat): (r: set<nat>)
    ensures |r| == n && forall i :: i in r <==> lo <= i < lo + n
  {
    if n == 0 then {} else UpTo(lo, n - 1) + {lo + n - 1}
  }

  lemma GrowthBound(prior: set<nat>, after: set<nat>, added: set<nat>, gone: set<nat>)
    requires gone <= prior && after <= (prior - gone) + added
    ensures |after| <= |prior| - |gone| + |added|
  {
    SubsetSize(after, (prior - gone) + added);
    assert prior == (prior - gone) + gone;
    assert |(prior - gone) + added| <= |prior - gone| + |added| by {
      assert (prior - gone) + added == (prior - gone) + (added - (prior - gone));
      SubsetSize(added - (prior - gone), added);
    }
  }

  // So the open segments of a record grow by at most two.
  lemma PutGrowsByTwo(log: seq<Entry>, ids: seq<nat>, e: Entry, now: Ms)
    requires Disjoint(log) && ValidInterval(e) && Listing(log, RecordOf(e), ids)
    ensures |OpenRows(PutLog(log, ids, e, now), RecordOf(e))| <= |OpenRows(log, RecordOf(e))| + 2
  {
    if !Already(log, e) {
      var after := PutLog(log, ids, e, now);
      PutInsertsAtMostThree(log, ids, e, now);
      var added := UpTo(|log|, |after| - |log|);
      var gone: set<nat> := {};
      if Pieces(log, ids, Assert(e), now) != [] {
        var i, _ := PieceOrigin(log, ids, Assert(e), now, Pieces(log, ids, Assert(e), now)[0]);
        gone := {i};
        assert !Open(after[i]);
      }
      assert forall j :: 0 <= j < |log| && Open(after[j]) ==> after[j] == log[j];
      GrowthBound(OpenRows(log, RecordOf(e)), OpenRows(after, RecordOf(e)), added, gone);
    }
  }

  // ---- The order in which the rows are visited does not matter ----

  function Without(ids: seq<nat>, k: nat): seq<nat>
    requires k < |ids|
  {
    ids[..k] + ids[k + 1..]
  }

  lemma WithoutLast(ids: seq<nat>, k: nat)
    requires k < |ids| - 1
    ensures var rest := Without(ids, k);
      rest != [] && rest[..|rest| - 1] == Without(ids[..|ids| - 1], k) && rest[|rest| - 1] == ids[|ids| - 1]
  {
  }

  lemma PiecesStep(log: seq<Entry>, ids: seq<nat>, ed: Edit, now: Ms)
    requires ids != []
    ensures multiset(Pieces(log, ids, ed, now)) == multiset(Pieces(log, ids[..|ids| - 1], ed, now))
      + multiset(Replacements(log, ids[|ids| - 1], ed, now))
  {
  }

  lemma {:induction false} PiecesWithout(log: seq<Entry>, ids: seq<nat>, k: nat, ed: Edit, now: Ms)
    requires k < |ids|
    ensures multiset(Pieces(log, ids, ed, now))
      == multiset(Pieces(log, Without(ids, k), ed, now)) + multiset(Replacements(log, ids[k], ed, now))
  {
    PiecesStep(log, ids, ed, now);
    if k == |ids| - 1 {
      assert Without(ids, k) == ids[..k];
    } else {
      WithoutLast(ids, k);
      PiecesStep(log, Without(ids, k), ed, now);
      PiecesWithout(log, ids[..|ids| - 1], k, ed, now);
    }
  }

  ghost predicate SameMembers(a: seq<nat>, b: seq<nat>) {
    forall i :: i in a <==> i in b
  }

  lemma NonemptyHas(b: seq<nat>)
    ensures b != [] ==> exists i :: i in b
  {
    if b != [] { assert b[0] in b; }
  }

  lemma MembersWithout(b: seq<nat>, k: nat)
    requires Distinct(b) && k < |b|
    ensures Distinct(Without(b, k))
    ensures forall i :: i in Without(b, k) <==> i in b && i != b[k]
  {
    var rest := Without(b, k);
    forall i | i in b && i != b[k] ensures i in rest {
      var l :| 0 <= l < |b| && b[l] == i;
      assert rest[if l < k then l else l - 1] == i;
    }
    forall i | i in rest ensures i in b && i != b[k] {
      var m :| 0 <= m < |rest| && rest[m] == i;
      assert i == b[if m < k then m else m + 1];
    }
  }

  lemma {:induction false} PiecesReordered(log: seq<Entry>, a: seq<nat>, b: seq<nat>, ed: Edit, now: Ms)
    requires Distinct(a) && Distinct(b) && SameMembers(a, b)
    ensures multiset(Pieces(log, a, ed, now)) == multiset(Pieces(log, b, ed, now))
  {
    if a == [] {
      NonemptyHas(b);
    } else {
      var last := |a| - 1;
      assert a[last] in b;
      var k :| 0 <= k < |b| && b[k] == a[last];
      MembersWithout(a, last);
      MembersWithout(b, k);
      PiecesWithout(log, a, last, ed, now);
      PiecesWithout(log, b, k, ed, now);
      PiecesReordered(log, Without(a, last), Without(b, k), ed, now);
    }
  }

  // Whatever order the database returns the selected rows in, the same versions are closed and
  // the same versions inserted: the tables differ at most in the ids of the new rows.
  lemma RewriteOrderIrrelevant(log: seq<Entry>, sel: Selection, a: seq<nat>, b: seq<nat>, ed: Edit, now: Ms)
    requires Listing(log, sel, a) && Listing(log, sel, b)
    ensures Rewrite(log, a, ed, now)[..|log|] == Rewrite(log, b, ed, now)[..|log|]
    ensures multiset(Rewrite(log, a, ed, now)) == multiset(Rewrite(log, b, ed, now))
  {
    assert SameMembers(a, b);
    PiecesReordered(log, a, b, ed, now);
    assert CloseRows(log, a, ed, now) == CloseRows(log, b, ed, now);
    assert Rewrite(log, a, ed, now)[..|log|] == CloseRows(log, a, ed, now);
    assert Rewrite(log, b, ed, now)[..|log|] == CloseRows(log, b, ed, now);
  }

  lemma PutOrderIrrelevant(log: seq<Entry>, a: seq<nat>, b: seq<nat>, e: Entry, now: Ms)
    requires Listing(log, RecordOf(e), a) && Listing(log, RecordOf(e), b)
    ensures multiset(PutLog(log, a, e, now)) == multiset(PutLog(log, b, e, now))
  {
    RewriteOrderIrrelevant(log, RecordOf(e), a, b, Assert(e), now);
  }

  // ---- invalidate and forget ----

  lemma PieceSelected(log: seq<Entry>, sel: Selection, ids: seq<nat>, ed: Edit, now: Ms, p: Entry)
    requires Listing(log, sel, ids) && p in Pieces(log, ids, ed, now)
    ensures Selects(sel, p)
  {
    var i, r := PieceOrigin(log, ids, ed, now, p);
    KeptWithin(ed, log[i], r);
  }

  // Rows a write did not select are untouched, and everything it inserts is selected.
  lemma RewriteConfined(log: seq<Entry>, sel: Selection, ids: seq<nat>, ed: Edit, now: Ms)
    requires Listing(log, sel, ids)
    ensures |log| <= |Rewrite(log, ids, ed, now)|
    ensures forall i :: 0 <= i < |log| && !Selects(sel, log[i]) ==> Rewrite(log, ids, ed, now)[i] == log[i]
    ensures forall j :: |log| <= j < |Rewrite(log, ids, ed, now)| ==> Selects(sel, Rewrite(log, ids, ed, now)[j])
  {
    var after, pieces := Rewrite(log, ids, ed, now), Pieces(log, ids, ed, now);
    forall j | |log| <= j < |after| ensures Selects(sel, after[j]) {
      assert after[j] == pieces[j - |log|];
      PieceSelected(log, sel, ids, ed, now, pieces[j - |log|]);
    }
  }

  lemma {:induction false} NothingTouched(log: seq<Entry>, ids: seq<nat>, ed: Edit, now: Ms)
    requires forall i :: i in ids ==> i < |log| && !Touches(ed, log[i])
    ensures Rewrite(log, ids, ed, now) == log
  {
    if ids != [] {
      var front := ids[..|ids| - 1];
      assert forall i :: i in front ==> i in ids;
      assert ids[|ids| - 1] in ids;
      NothingTouched(log, front, ed, now);
    }
  }

  // The selected open segments without an end are what is believed at the largest timestamp.
  lemma EndlessIsBelieved(r: Entry, place: Selection)
    ensures BelievedAt(r, place, MS_MAX) <==> Open(r) && Selects(place, r) && r.validTo.None?
  {
  }

  lemma ContentIsEmpty(log: seq<Entry>, place: Selection, v: Ms)
    ensures ContentAt(log, place, v) == {} <==> forall i :: 0 <= i < |log| ==> !BelievedAt(log[i], place, v)
  {
    forall i | 0 <= i < |log| && BelievedAt(log[i], place, v) ensures Content(log[i]) in ContentAt(log, place, v) {
    }
  }

  // A cut at the largest timestamp cuts nothing.
  lemma LastCut(log: seq<Entry>, sel: Selection, ids: seq<nat>, now: Ms)
    requires Listing(log, sel, ids)
    ensures Rewrite(log, ids, Truncate(MS_MAX), now) == log
  {
    NothingTouched(log, ids, Truncate(MS_MAX), now);
  }

  // Invalidation is truncation: of the rows it selects, everything before the cut stays and
  // everything from the cut on is gone, except the last point of an endless segment when it is
  // itself the cut.
  lemma InvalidateTruncates(log: seq<Entry>, sel: Selection, ids: seq<nat>, cut: Ms, now: Ms, v: Ms)
    requires Listing(log, sel, ids)
    ensures ContentAt(Rewrite(log, ids, Truncate(cut), now), sel, v) == (if v < cut then ContentAt(log, sel, v) else {})
      <==> v < MS_MAX || cut < MS_MAX || forall i :: 0 <= i < |log| && Open(log[i]) && Selects(sel, log[i]) ==>
        log[i].validTo.Some?
  {
    if v < MS_MAX || cut < MS_MAX {
      RewriteContent(log, sel, ids, Truncate(cut), now, sel, v);
    } else {
      LastCut(log, sel, ids, now);
      ContentIsEmpty(log, sel, v);
      forall i | 0 <= i < |log|
        ensures BelievedAt(log[i], sel, v) <==> Open(log[i]) && Selects(sel, log[i]) && log[i].validTo.None?
      {
        EndlessIsBelieved(log[i], sel);
      }
    }
  }

  lemma {:induction false} RetractKeepsNothing(log: seq<Entry>, ids: seq<nat>, now: Ms)
    ensures Pieces(log, ids, Retract, now) == []
  {
    if ids != [] { RetractKeepsNothing(log, ids[..|ids| - 1], now); }
  }

  lemma ForgetRetracts(log: seq<Entry>, sel: Selection, ids: seq<nat>, now: Ms)
    requires Listing(log, sel, ids)
    ensures Rewrite(log, ids, Retract, now)
      == seq(|log|, i requires 0 <= i < |log| => if Open(log[i]) && Selects(sel, log[i]) then Closed(log[i], now)
        else log[i])
  {
    RetractKeepsNothing(log, ids, now);
  }

  // The rows an invalidation counts are those reaching past the cut.
  ghost function Reaching(log: seq<Entry>, sel: Selection, cut: Ms): set<nat> {
    set i: nat | i < |log| && Open(log[i]) && Selects(sel, log[i]) && cut < Vto(log[i].validTo)
  }

  lemma CutPieceStays(log: seq<Entry>, ids: seq<nat>, cut: Ms, now: Ms, p: Entry)
    requires p in Pieces(log, ids, Truncate(cut), now)
    ensures !Touches(Truncate(cut), p)
  {
    var i, r := PieceOrigin(log, ids, Truncate(cut), now, p);
  }

  lemma NoneReaches(log: seq<Entry>, sel: Selection, ids: seq<nat>, cut: Ms, now: Ms, j: nat)
    requires Listing(log, sel, ids) && j < |Rewrite(log, ids, Truncate(cut), now)|
    requires Open(Rewrite(log, ids, Truncate(cut), now)[j]) && Selects(sel, Rewrite(log, ids, Truncate(cut), now)[j])
    ensures !Touches(Truncate(cut), Rewrite(log, ids, Truncate(cut), now)[j])
  {
    if j < |log| {
      assert j in ids;
    } else {
      CutPieceStays(log, ids, cut, now, Pieces(log, ids, Truncate(cut), now)[j - |log|]);
    }
  }

  // After an invalidation no selected row reaches past the cut, so repeating it is a no-op.
  lemma InvalidateTwice(log: seq<Entry>, sel: Selection, ids: seq<nat>, cut: Ms, now: Ms, again: seq<nat>, later: Ms)
    requires Listing(log, sel, ids)
    requires Listing(Rewrite(log, ids, Truncate(cut), now), sel, again)
    ensures Reaching(Rewrite(log, ids, Truncate(cut), now), sel, cut) == {}
    ensures Rewrite(Rewrite(log, ids, Truncate(cut), now), again, Truncate(cut), later)
      == Rewrite(log, ids, Truncate(cut), now)
  {
    var once := Rewrite(log, ids, Truncate(cut), now);
    forall j: nat | j < |once| && Open(once[j]) && Selects(sel, once[j]) ensures !Touches(Truncate(cut), once[j]) {
      NoneReaches(log, sel, ids, cut, now, j);
    }
    NothingTouched(once, again, Truncate(cut), later);
  }

  function Earlier(a: Ms, b: Ms): Ms {
    if a < b then a else b
  }

  lemma BelievedBefore(log: seq<Entry>, sel: Selection, ids: seq<nat>, ed: Edit, now: Ms, j: nat, place: Selection,
      v: Ms) returns (i: nat)
    requires Listing(log, sel, ids) && WellFormed(ed) && Exact(log, ed, v)
    requires j < |Rewrite(log, ids, ed, now)| && BelievedAt(Rewrite(log, ids, ed, now)[j], place, v)
    ensures i < |log| && BelievedAt(log[i], place, v) && !(Selects(sel, log[i]) && Erases(ed, v))
    ensures var r := Rewrite(log, ids, ed, now)[j];
      Content(r) == Content(log[i]) && Selects(sel, r) == Selects(sel, log[i])
  {
    i := RowOrigin(log, sel, ids, ed, now, j, v);
  }

  lemma BelievedAfter(log: seq<Entry>, sel: Selection, ids: seq<nat>, ed: Edit, now: Ms, i: nat, place: Selection,
      v: Ms) returns (j: nat)
    requires Listing(log, sel, ids) && Exact(log, ed, v)
    requires i < |log| && BelievedAt(log[i], place, v) && !(Selects(sel, log[i]) && Erases(ed, v))
    ensures j < |Rewrite(log, ids, ed, now)| && BelievedAt(Rewrite(log, ids, ed, now)[j], place, v)
    ensures var r := Rewrite(log, ids, ed, now)[j];
      Content(r) == Content(log[i]) && Selects(sel, r) == Selects(sel, log[i])
  {
    j := RowSurvives(log, sel, ids, ed, now, i, v);
  }

  lemma LeftAfterCut(log: seq<Entry>, sel: Selection, a: Ms, b: Ms, ids: seq<nat>, now: Ms, place: Selection, v: Ms)
    requires Listing(log, sel, ids) && (v < MS_MAX || a < MS_MAX)
    ensures ContentLeft(Rewrite(log, ids, Truncate(a), now), sel, Truncate(b), place, v)
      <= ContentLeft(log, sel, Truncate(Earlier(a, b)), place, v)
  {
    var first := Rewrite(log, ids, Truncate(a), now);
    forall c | c in ContentLeft(first, sel, Truncate(b), place, v)
      ensures c in ContentLeft(log, sel, Truncate(Earlier(a, b)), place, v)
    {
      var j: nat :| j < |first| && BelievedAt(first[j], place, v) && !(Selects(sel, first[j]) && Erases(Truncate(b), v))
        && Content(first[j]) == c;
      var i := BelievedBefore(log, sel, ids, Truncate(a), now, j, place, v);
    }
  }

  lemma LeftBeforeCut(log: seq<Entry>, sel: Selection, a: Ms, b: Ms, ids: seq<nat>, now: Ms, place: Selection, v: Ms)
    requires Listing(log, sel, ids) && (v < MS_MAX || a < MS_MAX)
    ensures ContentLeft(log, sel, Truncate(Earlier(a, b)), place, v)
      <= ContentLeft(Rewrite(log, ids, Truncate(a), now), sel, Truncate(b), place, v)
  {
    var first := Rewrite(log, ids, Truncate(a), now);
    forall c | c in ContentLeft(log, sel, Truncate(Earlier(a, b)), place, v)
      ensures c in ContentLeft(first, sel, Truncate(b), place, v)
    {
      var i: nat :| i < |log| && BelievedAt(log[i], place, v)
        && !(Selects(sel, log[i]) && Erases(Truncate(Earlier(a, b)), v)) && Content(log[i]) == c;
      var j := BelievedAfter(log, sel, ids, Truncate(a), now, i, place, v);
    }
  }

  lemma ExactCutsCompose(log: seq<Entry>, sel: Selection, a: Ms, b: Ms, ids: seq<nat>, ids2: seq<nat>, both: seq<nat>,
      now: Ms, later: Ms, place: Selection, v: Ms)
    requires Listing(log, sel, ids) && Listing(Rewrite(log, ids, Truncate(a), now), sel, ids2)
    requires Listing(log, sel, both) && (v < MS_MAX || (a < MS_MAX && b < MS_MAX))
    ensures ContentAt(Rewrite(Rewrite(log, ids, Truncate(a), now), ids2, Truncate(b), later), place, v)
      == ContentAt(Rewrite(log, both, Truncate(Earlier(a, b)), later), place, v)
  {
    RewriteContent(Rewrite(log, ids, Truncate(a), now), sel, ids2, Truncate(b), later, place, v);
    RewriteContent(log, sel, both, Truncate(Earlier(a, b)), later, place, v);
    LeftAfterCut(log, sel, a, b, ids, now, place, v);
    LeftBeforeCut(log, sel, a, b, ids, now, place, v);
  }

  lemma SameCut(log: seq<Entry>, sel: Selection, cut: Ms, ids: seq<nat>, both: seq<nat>, now: Ms, later: Ms,
      place: Selection, v: Ms)
    requires Listing(log, sel, ids) && Listing(log, sel, both)
    ensures ContentAt(Rewrite(log, ids, Truncate(cut), now), place, v)
      == ContentAt(Rewrite(log, both, Truncate(cut), later), place, v)
  {
    if cut == MS_MAX {
      LastCut(log, sel, ids, now);
      LastCut(log, sel, both, later);
    } else {
      RewriteContent(log, sel, ids, Truncate(cut), now, place, v);
      RewriteContent(log, sel, both, Truncate(cut), later, place, v);
    }
  }

  // Two cuts, one after the other, leave what one cut at the earlier point leaves.
  lemma CutsCompose(log: seq<Entry>, sel: Selection, a: Ms, b: Ms, ids: seq<nat>, ids2: seq<nat>, both: seq<nat>,
      now: Ms, later: Ms, place: Selection, v: Ms)
    requires Listing(log, sel, ids) && Listing(Rewrite(log, ids, Truncate(a), now), sel, ids2)
    requires Listing(log, sel, both)
    ensures ContentAt(Rewrite(Rewrite(log, ids, Truncate(a), now), ids2, Truncate(b), later), place, v)
      == ContentAt(Rewrite(log, both, Truncate(Earlier(a, b)), later), place, v)
  {
    if a == MS_MAX {
      LastCut(log, sel, ids, now);
      SameCut(log, sel, b, ids2, both, later, later, place, v);
    } else if b == MS_MAX {
      LastCut(Rewrite(log, ids, Truncate(a), now), sel, ids2, later);
      SameCut(log, sel, a, ids, both, now, later, place, v);
    } else {
      ExactCutsCompose(log, sel, a, b, ids, ids2, both, now, later, place, v);
    }
  }

  // ---- At the largest timestamp itself ----

  // The open segments of a record without an end: those believed at the largest timestamp.
  predicate Endless(r: Entry, e: Entry) {
    Open(r) && SameRecord(r, e) && r.validTo.None?
  }

  // An endless segment keeps the last point when it is not cut, or cut by an interval that ends
  // earlier.
  predicate KeepsEnd(r: Entry, e: Entry) {
    Endless(r, e) && (!Overlap(r, e) || (e.validTo.Some? && e.validTo.value < MS_MAX))
  }

  ghost function EndBodies(log: seq<Entry>, e: Entry): set<string> {
    (set i | 0 <= i < |log| && KeepsEnd(log[i], e) :: log[i].body) + if e.validTo.None? then {e.body} else {}
  }

  lemma EndKept(log: seq<Entry>, ids: seq<nat>, e: Entry, now: Ms, i: nat) returns (j: nat)
    requires Listing(log, RecordOf(e), ids) && i < |log| && KeepsEnd(log[i], e)
    ensures j < |Rewrite(log, ids, Assert(e), now)|
    ensures Endless(Rewrite(log, ids, Assert(e), now)[j], e) && Rewrite(log, ids, Assert(e), now)[j].body == log[i].body
  {
    if Overlap(log[i], e) {
      assert i in ids;
      j := PieceAdded(log, ids, Assert(e), now, i, After(log[i], e.validTo)[0]);
    } else {
      j := i;
      UntouchedRow(log, ids, Assert(e), now, i);
    }
  }

  lemma EndOfPiece(log: seq<Entry>, ids: seq<nat>, e: Entry, now: Ms, p: Entry) returns (i: nat)
    requires Listing(log, RecordOf(e), ids) && p in Pieces(log, ids, Assert(e), now) && Endless(p, e)
    ensures i < |log| && KeepsEnd(log[i], e) && log[i].body == p.body
  {
    var r;
    i, r := PieceOrigin(log, ids, Assert(e), now, p);
    assert i in ids;
    KeptWithin(Assert(e), log[i], r);
  }

  lemma UncutRow(log: seq<Entry>, ids: seq<nat>, e: Entry, now: Ms, j: nat)
    requires Listing(log, RecordOf(e), ids) && j < |log| && Endless(Rewrite(log, ids, Assert(e), now)[j], e)
    ensures Rewrite(log, ids, Assert(e), now)[j] == log[j] && !Overlap(log[j], e)
  {
    assert Rewrite(log, ids, Assert(e), now)[j] == log[j];
    assert j in ids;
  }

  lemma EndOrigin(log: seq<Entry>, ids: seq<nat>, e: Entry, now: Ms, j: nat) returns (i: nat)
    requires Listing(log, RecordOf(e), ids)
    requires j < |Rewrite(log, ids, Assert(e), now)| && Endless(Rewrite(log, ids, Assert(e), now)[j], e)
    ensures i < |log| && KeepsEnd(log[i], e) && log[i].body == Rewrite(log, ids, Assert(e), now)[j].body
  {
    if j < |log| {
      i := j;
      UncutRow(log, ids, e, now, j);
    } else {
      i := EndOfPiece(log, ids, e, now, Pieces(log, ids, Assert(e), now)[j - |log|]);
    }
  }

  // What is believed there after a put that records something.
  lemma LastPointBodies(log: seq<Entry>, ids: seq<nat>, e: Entry, now: Ms)
    requires Listing(log, RecordOf(e), ids) && !Already(log, e)
    ensures BodiesAt(PutLog(log, ids, e, now), RecordOf(e), MS_MAX) == EndBodies(log, e)
  {
    var cut, after := Rewrite(log, ids, Assert(e), now), PutLog(log, ids, e, now);
    forall b | b in BodiesAt(after, RecordOf(e), MS_MAX) ensures b in EndBodies(log, e) {
      var j: nat :| j < |after| && BelievedAt(after[j], RecordOf(e), MS_MAX) && after[j].body == b;
      EndlessIsBelieved(after[j], RecordOf(e));
      if j < |cut| {
        var i := EndOrigin(log, ids, e, now, j);
      }
    }
    forall b | b in EndBodies(log, e) ensures b in BodiesAt(after, RecordOf(e), MS_MAX) {
      if i :| 0 <= i < |log| && KeepsEnd(log[i], e) && log[i].body == b {
        var j := EndKept(log, ids, e, now, i);
        EndlessIsBelieved(after[j], RecordOf(e));
        assert after[j] == cut[j];
      } else {
        assert after[|cut|] == Inserted(e, now) && BelievedAt(after[|cut|], RecordOf(e), MS_MAX);
      }
    }
  }

  // When the last point is as the asserted interval says it should be.
  ghost predicate EndAgrees(log: seq<Entry>, e: Entry) {
    if Already(log, e) then
      e.validTo.None? ==>
        (exists i :: 0 <= i < |log| && Endless(log[i], e))
          && (forall i :: 0 <= i < |log| && Endless(log[i], e) ==> log[i].body == e.body)
    else if e.validTo.None? then
      forall i :: 0 <= i < |log| && Endless(log[i], e) && !Overlap(log[i], e) ==> log[i].body == e.body
    else if e.validTo.value == MS_MAX then
      forall i :: 0 <= i < |log| && Endless(log[i], e) && Overlap(log[i], e) ==>
        exists j :: 0 <= j < |log| && Endless(log[j], e) && !Overlap(log[j], e) && log[j].body == log[i].body
    else true
  }

  ghost function EndlessBodies(log: seq<Entry>, e: Entry): set<string> {
    set i | 0 <= i < |log| && Endless(log[i], e) :: log[i].body
  }

  lemma BodiesAtEnd(log: seq<Entry>, e: Entry)
    ensures BodiesAt(log, RecordOf(e), MS_MAX) == EndlessBodies(log, e)
  {
    forall i | 0 <= i < |log|
      ensures BelievedAt(log[i], RecordOf(e), MS_MAX) <==> Endless(log[i], e)
    {
      EndlessIsBelieved(log[i], RecordOf(e));
    }
  }

  lemma EndAlready(log: seq<Entry>, e: Entry)
    requires Already(log, e)
    ensures EndlessBodies(log, e) == (if e.validTo.None? then {e.body} else EndlessBodies(log, e)) <==>
      EndAgrees(log, e)
  {
    if e.validTo.None? {
      if i :| 0 <= i < |log| && Endless(log[i], e) { assert log[i].body in EndlessBodies(log, e); }
      forall i | 0 <= i < |log| && Endless(log[i], e) ensures log[i].body in EndlessBodies(log, e) {
      }
    }
  }

  lemma EndUnbounded(log: seq<Entry>, e: Entry)
    requires e.validTo.None?
    ensures EndBodies(log, e) == {e.body} <==>
      forall i :: 0 <= i < |log| && Endless(log[i], e) && !Overlap(log[i], e) ==> log[i].body == e.body
  {
    forall i | 0 <= i < |log| && KeepsEnd(log[i], e) ensures log[i].body in EndBodies(log, e) {
    }
  }

  lemma EndAtLast(log: seq<Entry>, e: Entry)
    requires e.validTo == Some(MS_MAX) && !Already(log, e)
    ensures EndBodies(log, e) == EndlessBodies(log, e) <==> EndAgrees(log, e)
  {
    forall i | 0 <= i < |log| && Endless(log[i], e) ensures log[i].body in EndlessBodies(log, e) {
    }
    forall i | 0 <= i < |log| && KeepsEnd(log[i], e) ensures log[i].body in EndBodies(log, e) {
    }
  }

  lemma EndEarlier(log: seq<Entry>, e: Entry)
    requires e.validTo.Some? && e.validTo.value < MS_MAX
    ensures EndBodies(log, e) == EndlessBodies(log, e)
  {
    assert forall i :: 0 <= i < |log| ==> (KeepsEnd(log[i], e) <==> Endless(log[i], e));
  }

  lemma PutAtLastPoint(log: seq<Entry>, ids: seq<nat>, e: Entry, now: Ms)
    requires ValidInterval(e) && Listing(log, RecordOf(e), ids)
    ensures Updated(log, PutLog(log, ids, e, now), e, RecordOf(e), MS_MAX) <==> EndAgrees(log, e)
  {
    BodiesAtEnd(log, e);
    if Already(log, e) {
      EndAlready(log, e);
    } else {
      LastPointBodies(log, ids, e, now);
      if e.validTo.None? {
        EndUnbounded(log, e);
      } else if e.validTo.value == MS_MAX {
        EndAtLast(log, e);
      } else {
        EndEarlier(log, e);
      }
    }
  }

  // A put changes nothing about any other record, at any point.
  lemma OtherRecords(log: seq<Entry>, ids: seq<nat>, e: Entry, now: Ms, place: Selection, v: Ms)
    requires Listing(log, RecordOf(e), ids) && place.OfRecord? && place != RecordOf(e)
    ensures BodiesAt(PutLog(log, ids, e, now), place, v) == BodiesAt(log, place, v)
  {
    if !Already(log, e) {
      var after := PutLog(log, ids, e, now);
      RewriteConfined(log, RecordOf(e), ids, Assert(e), now);
      forall i | 0 <= i < |log| && BelievedAt(log[i], place, v) ensures log[i].body in BodiesAt(after, place, v) {
        assert after[i] == log[i];
      }
      forall j | 0 <= j < |after| && BelievedAt(after[j], place, v) ensures after[j].body in BodiesAt(log, place, v) {
        assert j < |log| && after[j] == log[j];
      }
    }
  }

  // `put` is a pointwise update of the believed bodies: at every point below the largest
  // timestamp, for every other record at that one too, and for its own record there exactly when
  // the end agrees.
  lemma PutBodies(log: seq<Entry>, ids: seq<nat>, e: Entry, now: Ms, place: Selection, v: Ms)
    requires Disjoint(log) && ValidInterval(e) && Listing(log, RecordOf(e), ids) && place.OfRecord?
    ensures Updated(log, PutLog(log, ids, e, now), e, place, v) <==>
      v < MS_MAX || place != RecordOf(e) || EndAgrees(log, e)
  {
    if v < MS_MAX {
      PutBodiesExact(log, ids, e, now, place, v);
    } else if place != RecordOf(e) {
      OtherRecords(log, ids, e, now, place, v);
    } else {
      PutAtLastPoint(log, ids, e, now);
    }
  }

  // A put takes the last belief there away exactly when it ends there and cuts every endless segment.
  lemma LastPointLostIff(log: seq<Entry>, ids: seq<nat>, e: Entry, now: Ms)
    requires ValidInterval(e) && Listing(log, RecordOf(e), ids) && BodiesAt(log, RecordOf(e), MS_MAX) != {}
    ensures BodiesAt(PutLog(log, ids, e, now), RecordOf(e), MS_MAX) == {}
      <==> !Already(log, e) && e.validTo == Some(MS_MAX) && forall i :: 0 <= i < |log| && Endless(log[i], e) ==>
        Overlap(log[i], e)
  {
    BodiesAtEnd(log, e);
    if !Already(log, e) {
      LastPointBodies(log, ids, e, now);
      forall i | 0 <= i < |log| && KeepsEnd(log[i], e) ensures log[i].body in EndBodies(log, e) {
      }
      if e.validTo.Some? && e.validTo.value < MS_MAX { EndEarlier(log, e); }
    }
  }

  function Sample(body: string, from: Ms, to: Option<Ms>): Entry {
    Entry("u", "memory", "n", "t", body, [], 50, "u", 0, from, to, 0, None, "")
  }

  // For one: an interval that ends at the largest timestamp, asserted over an open-ended segment,
  // leaves that last point with no belief at all.
  lemma LastPointIsLost(now: Ms)
    ensures var log, e := [Sample("a", 0, None)], Sample("b", 10, Some(MS_MAX));
      && Disjoint(log) && Listing(log, RecordOf(e), [0]) && !Covers(e, MS_MAX) && !EndAgrees(log, e)
      && BodiesAt(log, RecordOf(e), MS_MAX) == {"a"}
      && BodiesAt(PutLog(log, [0], e, now), RecordOf(e), MS_MAX) == {}
  {
    var log, e := [Sample("a", 0, None)], Sample("b", 10, Some(MS_MAX));
    assert "a"[0] != "b"[0];
    assert BelievedAt(log[0], RecordOf(e), MS_MAX) && log[0].body in BodiesAt(log, RecordOf(e), MS_MAX);
    LastPointLostIff(log, [0], e, now);
    PutAtLastPoint(log, [0], e, now);
  }

  // For another: two intervals that start there are disjoint in arithmetic and both hold in SQL.
  lemma LastPointIsAmbiguous(now: Ms)
    ensures var log, e := [Sample("a", MS_MAX, None)], Sample("b", MS_MAX, None);
      && Disjoint(log) && Listing(log, RecordOf(e), [0]) && !EndAgrees(log, e)
      && BodiesAt(PutLog(log, [0], e, now), RecordOf(e), MS_MAX) == {"a", "b"}
  {
    var log, e := [Sample("a", MS_MAX, None)], Sample("b", MS_MAX, None);
    assert "a"[0] != "b"[0];
    assert KeepsEnd(log[0], e) && log[0].body == "a";
    LastPointBodies(log, [0], e, now);
  }
}
