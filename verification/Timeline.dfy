// What one write does to the table of versions, as a function of the table before, and what
// follows for the two time axes. A table is the sequence of its rows in insertion order: rows
// are never deleted, so a row's position serves as its id.
module Timeline {
  import opened Records

  // ---- Definitions ----

  // Which open rows a write looks at: `put` by key and scope, the others by uri and, for a
  // scope-exact writer, by scope.
  datatype Selection = OfRecord(key: string, scope: string) | OfUri(uri: string, within: Option<string>)

  predicate Selects(sel: Selection, e: Entry) {
    match sel
    case OfRecord(key, scope) => e.dedupKey == key && e.scope == scope
    case OfUri(uri, within) => e.uri == uri && (within.None? || e.scope == within.value)
  }

  // `ids` lists the open rows that `sel` selects, each once, in some order: the queries have no
  // ORDER BY, so nothing below may depend on which order it is.
  ghost predicate Listing(log: seq<Entry>, sel: Selection, ids: seq<nat>) {
    && (forall k, l :: 0 <= k < l < |ids| ==> ids[k] != ids[l])
    && (forall i: nat :: i in ids <==> i < |log| && Open(log[i]) && Selects(sel, log[i]))
  }

  // What a write does with one row it selected.
  datatype Edit = Assert(e: Entry) | Retract | Truncate(cut: Ms)

  predicate Touches(ed: Edit, r: Entry) {
    match ed
    case Assert(e) => Overlap(r, e)
    case Retract => true
    case Truncate(cut) => cut < Vto(r.validTo)
  }

  function Before(r: Entry, at: Ms): seq<Entry> {
    if r.validFrom < at then [ReadBack(r).(validTo := Some(at))] else []
  }

  function After(r: Entry, at: Option<Ms>): seq<Entry> {
    if at.Some? && at.value < Vto(r.validTo) then [ReadBack(r).(validFrom := at.value)] else []
  }

  // The versions that replace a touched row, before they are stamped.
  function Kept(ed: Edit, r: Entry): seq<Entry> {
    match ed
    case Assert(e) => Before(r, e.validFrom) + After(r, e.validTo)
    case Retract => []
    case Truncate(cut) => Before(r, cut)
  }

  function Closed(e: Entry, now: Ms): Entry {
    e.(systemTo := Some(now))
  }

  function Inserted(e: Entry, now: Ms): Entry {
    e.(systemFrom := now, systemTo := None)
  }

  function InsertedAll(es: seq<Entry>, now: Ms): seq<Entry> {
    seq(|es|, k requires 0 <= k < |es| => Inserted(es[k], now))
  }

  function CloseRows(log: seq<Entry>, ids: seq<nat>, ed: Edit, now: Ms): seq<Entry> {
    seq(|log|, i requires 0 <= i < |log| =>
      if i in ids && Touches(ed, log[i]) then Closed(log[i], now) else log[i])
  }

  function Replacements(log: seq<Entry>, i: nat, ed: Edit, now: Ms): seq<Entry> {
    if i < |log| && Touches(ed, log[i]) then InsertedAll(Kept(ed, log[i]), now) else []
  }

  // The versions inserted while the rows `ids` are edited in this order.
  function Pieces(log: seq<Entry>, ids: seq<nat>, ed: Edit, now: Ms): seq<Entry> {
    if ids == [] then []
    else Pieces(log, ids[..|ids| - 1], ed, now) + Replacements(log, ids[|ids| - 1], ed, now)
  }

  function Rewrite(log: seq<Entry>, ids: seq<nat>, ed: Edit, now: Ms): seq<Entry> {
    CloseRows(log, ids, ed, now) + Pieces(log, ids, ed, now)
  }

  // `put` records nothing when an open segment with the same body already covers the interval.
  predicate CoversBody(r: Entry, e: Entry) {
    && Open(r) && SameRecord(r, e) && r.body == e.body
    && r.validFrom <= e.validFrom && Vto(r.validTo) >= Vto(e.validTo)
  }

  predicate Already(log: seq<Entry>, e: Entry) {
    exists i :: 0 <= i < |log| && CoversBody(log[i], e)
  }

  function PutLog(log: seq<Entry>, ids: seq<nat>, e: Entry, now: Ms): seq<Entry> {
    if Already(log, e) then log else Rewrite(log, ids, Assert(e), now) + [Inserted(e, now)]
  }

  function RecordOf(e: Entry): Selection {
    OfRecord(e.dedupKey, e.scope)
  }

  // The open segments of one record never overlap in valid time.
  ghost predicate Disjoint(log: seq<Entry>) {
    forall i, j :: 0 <= i < j < |log| && Open(log[i]) && Open(log[j]) && SameRecord(log[i], log[j])
      ==> !Overlap(log[i], log[j])
  }

  // What the store currently believes, at a valid-time point, about a record or a uri.
  predicate BelievedAt(r: Entry, place: Selection, v: Ms) {
    Open(r) && Selects(place, r) && Covers(r, v)
  }

  ghost function BodiesAt(log: seq<Entry>, place: Selection, v: Ms): set<string> {
    set i | 0 <= i < |log| && BelievedAt(log[i], place, v) :: log[i].body
  }

  ghost function ContentAt(log: seq<Entry>, place: Selection, v: Ms): set<Entry> {
    set i | 0 <= i < |log| && BelievedAt(log[i], place, v) :: Content(log[i])
  }

  // ---- The shape of a rewritten table ----

  lemma {:induction false} PieceOrigin(log: seq<Entry>, ids: seq<nat>, ed: Edit, now: Ms, p: Entry)
    returns (i: nat, r: Entry)
    requires p in Pieces(log, ids, ed, now)
    ensures i in ids && i < |log| && Touches(ed, log[i]) && r in Kept(ed, log[i]) && p == Inserted(r, now)
  {
    var last := ids[|ids| - 1];
    if p in Replacements(log, last, ed, now) {
      var k :| 0 <= k < |Kept(ed, log[last])| && p == Inserted(Kept(ed, log[last])[k], now);
      i, r := last, Kept(ed, log[last])[k];
    } else {
      i, r := PieceOrigin(log, ids[..|ids| - 1], ed, now, p);
    }
  }

  lemma {:induction false} PieceExists(log: seq<Entry>, ids: seq<nat>, ed: Edit, now: Ms, i: nat, r: Entry)
    requires i in ids && i < |log| && Touches(ed, log[i]) && r in Kept(ed, log[i])
    ensures Inserted(r, now) in Pieces(log, ids, ed, now)
  {
    var last := ids[|ids| - 1];
    if i == last {
      var k :| 0 <= k < |Kept(ed, log[i])| && Kept(ed, log[i])[k] == r;
      assert InsertedAll(Kept(ed, log[i]), now)[k] == Inserted(r, now);
      assert Inserted(r, now) in Replacements(log, last, ed, now);
    } else {
      assert i in ids[..|ids| - 1];
      PieceExists(log, ids[..|ids| - 1], ed, now, i, r);
    }
  }

  lemma PieceRow(log: seq<Entry>, ids: seq<nat>, ed: Edit, now: Ms, p: Entry) returns (j: nat)
    requires p in Pieces(log, ids, ed, now)
    ensures |log| <= j < |Rewrite(log, ids, ed, now)| && Rewrite(log, ids, ed, now)[j] == p
  {
    var b :| 0 <= b < |Pieces(log, ids, ed, now)| && Pieces(log, ids, ed, now)[b] == p;
    j := |log| + b;
  }

  // What replaces a row comes to stand behind the rows that were there.
  lemma PieceAdded(log: seq<Entry>, ids: seq<nat>, ed: Edit, now: Ms, i: nat, r: Entry) returns (j: nat)
    requires i in ids && i < |log| && Touches(ed, log[i]) && r in Kept(ed, log[i])
    ensures |log| <= j < |Rewrite(log, ids, ed, now)| && Rewrite(log, ids, ed, now)[j] == Inserted(r, now)
  {
    PieceExists(log, ids, ed, now, i, r);
    j := PieceRow(log, ids, ed, now, Inserted(r, now));
  }

  // Arithmetic and SQL agree about a missing end at every point below the largest timestamp,
  // and at that one too when no interval uses it as a bound.
  predicate Bounded(e: Entry) {
    e.validFrom < MS_MAX && e.validTo != Some(MS_MAX)
  }

  predicate ExactRow(r: Entry, v: Ms) {
    v < MS_MAX || Bounded(r)
  }

  ghost predicate ExactLog(log: seq<Entry>, v: Ms) {
    forall i :: 0 <= i < |log| && Open(log[i]) ==> ExactRow(log[i], v)
  }

  // All that an edit of one row needs for them to agree about it.
  predicate ExactFor(ed: Edit, r: Entry, v: Ms) {
    v < MS_MAX ||
    match ed
    case Assert(e) => if e.validTo.None? then e.validFrom < MS_MAX && r.validFrom < MS_MAX else e.validTo.value < MS_MAX
    case Retract => true
    case Truncate(cut) => cut < MS_MAX
  }

  ghost predicate Exact(log: seq<Entry>, ed: Edit, v: Ms) {
    forall i :: 0 <= i < |log| && Open(log[i]) ==> ExactFor(ed, log[i], v)
  }

  predicate WellFormed(ed: Edit) {
    ed.Assert? ==> ValidInterval(ed.e)
  }

  lemma KeptWithin(ed: Edit, r: Entry, k: Entry)
    requires Touches(ed, r) && k in Kept(ed, r)
    ensures k.uri == r.uri && SameRecord(k, r) && Content(k) == Content(r) && k.kind == Respelled(r.kind)
    ensures r.validFrom <= k.validFrom && Vto(k.validTo) <= Vto(r.validTo)
    ensures ValidInterval(r) ==> ValidInterval(k)
  {
    RespelledTwice(r.kind);
  }

  // What replaces a row does not depend on whether it was decoded first.
  lemma KeptReadBack(ed: Edit, r: Entry)
    ensures Kept(ed, ReadBack(r)) == Kept(ed, r)
  {
    RespelledTwice(r.kind);
  }

  lemma KeptDisjoint(ed: Edit, r: Entry)
    requires Touches(ed, r) && WellFormed(ed)
    ensures |Kept(ed, r)| <= 2
    ensures |Kept(ed, r)| == 2 ==> !Overlap(Kept(ed, r)[0], Kept(ed, r)[1])
    ensures ed.Assert? ==> forall k :: k in Kept(ed, r) ==> !Overlap(k, ed.e)
  {
  }

  ghost predicate Distinct(ids: seq<nat>) {
    forall k, l :: 0 <= k < l < |ids| ==> ids[k] != ids[l]
  }

  ghost predicate AllOpen(log: seq<Entry>, ids: seq<nat>) {
    forall i :: i in ids ==> i < |log| && Open(log[i])
  }

  // A replacement of one row never overlaps another open row, nor a replacement of one.
  lemma PieceClear(log: seq<Entry>, i: nat, j: nat, ed: Edit, p: Entry)
    requires Disjoint(log) && i < |log| && j < |log| && i != j && Open(log[i]) && Open(log[j])
    requires Touches(ed, log[i]) && p in Kept(ed, log[i]) && SameRecord(p, log[j])
    ensures !Overlap(p, log[j]) && !Overlap(log[j], p)
  {
    KeptWithin(ed, log[i], p);
    assert SameRecord(log[i], log[j]);
    if i < j { assert !Overlap(log[i], log[j]); } else { assert !Overlap(log[j], log[i]); }
  }

  lemma PiecesClear(log: seq<Entry>, front: seq<nat>, last: nat, ed: Edit, now: Ms, p: Entry, q: Entry)
    requires Disjoint(log) && AllOpen(log, front) && last < |log| && Open(log[last]) && last !in front
    requires p in Pieces(log, front, ed, now) && Touches(ed, log[last]) && q in Kept(ed, log[last]) && SameRecord(p, q)
    ensures !Overlap(p, q)
  {
    var i, r := PieceOrigin(log, front, ed, now, p);
    KeptWithin(ed, log[last], q);
    PieceClear(log, i, last, ed, r);
  }

  lemma DisjointConcat(p: seq<Entry>, q: seq<Entry>)
    requires Disjoint(p) && Disjoint(q)
    requires forall a, b ::
      0 <= a < |p| && 0 <= b < |q| && Open(p[a]) && Open(q[b]) && SameRecord(p[a], q[b]) ==> !Overlap(p[a], q[b])
    ensures Disjoint(p + q)
  {
  }

  lemma ReplacementsDisjoint(log: seq<Entry>, i: nat, ed: Edit, now: Ms)
    requires i < |log| && WellFormed(ed)
    ensures Disjoint(Replacements(log, i, ed, now))
  {
    if Touches(ed, log[i]) { KeptDisjoint(ed, log[i]); }
  }

  lemma {:induction false} PiecesDisjoint(log: seq<Entry>, ids: seq<nat>, ed: Edit, now: Ms)
    requires Disjoint(log) && Distinct(ids) && AllOpen(log, ids) && WellFormed(ed)
    ensures Disjoint(Pieces(log, ids, ed, now))
  {
    if ids != [] {
      var front, last := ids[..|ids| - 1], ids[|ids| - 1];
      assert forall i :: i in front ==> i in ids;
      assert last in ids;
      PiecesDisjoint(log, front, ed, now);
      ReplacementsDisjoint(log, last, ed, now);
      var p, q := Pieces(log, front, ed, now), Replacements(log, last, ed, now);
      forall a, b | 0 <= a < |p| && 0 <= b < |q| && SameRecord(p[a], q[b]) ensures !Overlap(p[a], q[b]) {
        PiecesClear(log, front, last, ed, now, p[a], Kept(ed, log[last])[b]);
      }
      DisjointConcat(p, q);
    }
  }

  lemma {:induction false} PiecesOpen(log: seq<Entry>, ids: seq<nat>, ed: Edit, now: Ms)
    ensures forall p :: p in Pieces(log, ids, ed, now) ==> Open(p) && p.systemFrom == now
  {
    forall p | p in Pieces(log, ids, ed, now) ensures Open(p) && p.systemFrom == now {
      var _, _ := PieceOrigin(log, ids, ed, now, p);
    }
  }

  lemma CloseRowsDisjoint(log: seq<Entry>, ids: seq<nat>, ed: Edit, now: Ms)
    requires Disjoint(log)
    ensures Disjoint(CloseRows(log, ids, ed, now))
  {
  }

  lemma RewriteDisjoint(log: seq<Entry>, ids: seq<nat>, ed: Edit, now: Ms)
    requires Disjoint(log) && Distinct(ids) && AllOpen(log, ids) && WellFormed(ed)
    ensures Disjoint(Rewrite(log, ids, ed, now))
  {
    PiecesDisjoint(log, ids, ed, now);
    CloseRowsDisjoint(log, ids, ed, now);
    var kept, pieces := CloseRows(log, ids, ed, now), Pieces(log, ids, ed, now);
    forall j, b | 0 <= j < |kept| && 0 <= b < |pieces| && Open(kept[j]) && SameRecord(kept[j], pieces[b])
      ensures !Overlap(kept[j], pieces[b])
    {
      var i, r := PieceOrigin(log, ids, ed, now, pieces[b]);
      PieceClear(log, i, j, ed, r);
    }
    DisjointConcat(kept, pieces);
  }

  lemma PieceIsOff(log: seq<Entry>, ids: seq<nat>, e: Entry, now: Ms, p: Entry)
    requires ValidInterval(e) && p in Pieces(log, ids, Assert(e), now)
    ensures !Overlap(p, e)
  {
    var i, r := PieceOrigin(log, ids, Assert(e), now, p);
    KeptDisjoint(Assert(e), log[i]);
  }

  // Once the overlapping segments are cut back, the asserted interval is free.
  lemma IntervalIsFree(log: seq<Entry>, ids: seq<nat>, e: Entry, now: Ms, j: nat)
    requires ValidInterval(e) && Listing(log, RecordOf(e), ids)
    requires j < |Rewrite(log, ids, Assert(e), now)|
    requires Open(Rewrite(log, ids, Assert(e), now)[j]) && SameRecord(Rewrite(log, ids, Assert(e), now)[j], e)
    ensures !Overlap(Rewrite(log, ids, Assert(e), now)[j], e)
  {
    if j < |log| {
      assert j in ids;
    } else {
      PieceIsOff(log, ids, e, now, Pieces(log, ids, Assert(e), now)[j - |log|]);
    }
  }

  // `put` keeps the open segments of every record disjoint, whatever stamp it carries.
  lemma PutDisjoint(log: seq<Entry>, ids: seq<nat>, e: Entry, now: Ms)
    requires Disjoint(log) && ValidInterval(e) && Listing(log, RecordOf(e), ids)
    ensures Disjoint(PutLog(log, ids, e, now))
  {
    if !Already(log, e) {
      var cut := Rewrite(log, ids, Assert(e), now);
      RewriteDisjoint(log, ids, Assert(e), now);
      forall j | 0 <= j < |cut| && Open(cut[j]) && SameRecord(cut[j], e) ensures !Overlap(cut[j], e) {
        IntervalIsFree(log, ids, e, now, j);
      }
      DisjointConcat(cut, [Inserted(e, now)]);
    }
  }

  // ---- What the store believes after a write ----

  // The points at which an edit takes a selected row's content away.
  predicate Erases(ed: Edit, v: Ms) {
    match ed
    case Assert(e) => Covers(e, v)
    case Retract => true
    case Truncate(cut) => cut <= v
  }

  ghost function ContentLeft(log: seq<Entry>, sel: Selection, ed: Edit, place: Selection, v: Ms): set<Entry> {
    set i | 0 <= i < |log| && BelievedAt(log[i], place, v) && !(Selects(sel, log[i]) && Erases(ed, v)) ::
      Content(log[i])
  }

  lemma PieceCovers(ed: Edit, r: Entry, v: Ms) returns (k: Entry)
    requires Touches(ed, r) && Covers(r, v) && !Erases(ed, v) && ExactFor(ed, r, v)
    ensures k in Kept(ed, r) && Covers(k, v)
  {
    match ed {
      case Assert(e) =>
        if v < e.validFrom { k := Before(r, e.validFrom)[0]; } else { k := After(r, e.validTo)[0]; }
      case Truncate(cut) =>
        k := Before(r, cut)[0];
    }
  }

  lemma ErasedOnlyIfTouched(ed: Edit, r: Entry, v: Ms)
    requires Covers(r, v) && ExactFor(ed, r, v) && !Touches(ed, r)
    ensures !Erases(ed, v)
  {
  }

  lemma PieceNotErased(ed: Edit, r: Entry, k: Entry, v: Ms)
    requires Touches(ed, r) && k in Kept(ed, r) && Covers(k, v) && ExactFor(ed, r, v) && WellFormed(ed)
    ensures Covers(r, v) && !Erases(ed, v)
  {
  }

  // Row `r` believes the same content as row `s`, and both do at `v`.
  predicate Matches(r: Entry, s: Entry, v: Ms) {
    Open(r) && Covers(r, v) && Open(s) && Covers(s, v) && SameRecord(r, s) && Content(r) == Content(s)
  }

  lemma PieceMatches(ed: Edit, r: Entry, k: Entry, now: Ms, v: Ms)
    requires Open(r) && Covers(r, v) && Touches(ed, r) && k in Kept(ed, r) && Covers(k, v)
    ensures Matches(Inserted(k, now), r, v) && Inserted(k, now).kind == Respelled(r.kind)
  {
    KeptWithin(ed, r, k);
  }

  lemma UntouchedRow(log: seq<Entry>, ids: seq<nat>, ed: Edit, now: Ms, i: nat)
    requires i < |log| && !(i in ids && Touches(ed, log[i]))
    ensures i < |Rewrite(log, ids, ed, now)| && Rewrite(log, ids, ed, now)[i] == log[i]
  {
  }

  // The text under which a selected row's kind is stored afterwards.
  function KindAfter(sel: Selection, ed: Edit, r: Entry): string {
    if Selects(sel, r) && Touches(ed, r) then Respelled(r.kind) else r.kind
  }

  lemma TouchedRowSurvives(log: seq<Entry>, ids: seq<nat>, ed: Edit, now: Ms, i: nat, v: Ms) returns (j: nat)
    requires Exact(log, ed, v) && i in ids && i < |log| && Open(log[i]) && Touches(ed, log[i]) && Covers(log[i], v)
    requires !Erases(ed, v)
    ensures j < |Rewrite(log, ids, ed, now)| && Matches(Rewrite(log, ids, ed, now)[j], log[i], v)
    ensures Rewrite(log, ids, ed, now)[j].kind == Respelled(log[i].kind)
  {
    var k := PieceCovers(ed, log[i], v);
    PieceMatches(ed, log[i], k, now, v);
    j := PieceAdded(log, ids, ed, now, i, k);
  }

  lemma RowSurvives(log: seq<Entry>, sel: Selection, ids: seq<nat>, ed: Edit, now: Ms, i: nat, v: Ms) returns (j: nat)
    requires Listing(log, sel, ids) && Exact(log, ed, v)
    requires i < |log| && Open(log[i]) && Covers(log[i], v) && !(Selects(sel, log[i]) && Erases(ed, v))
    ensures j < |Rewrite(log, ids, ed, now)| && Matches(Rewrite(log, ids, ed, now)[j], log[i], v)
    ensures Rewrite(log, ids, ed, now)[j].kind == KindAfter(sel, ed, log[i])
  {
    if i in ids && Touches(ed, log[i]) {
      j := TouchedRowSurvives(log, ids, ed, now, i, v);
    } else {
      j := i;
      UntouchedRow(log, ids, ed, now, i);
    }
  }

  lemma PieceRowOrigin(log: seq<Entry>, ids: seq<nat>, ed: Edit, now: Ms, p: Entry, v: Ms) returns (i: nat)
    requires AllOpen(log, ids) && WellFormed(ed) && Exact(log, ed, v)
    requires p in Pieces(log, ids, ed, now) && Covers(p, v)
    ensures i < |log| && i in ids && Matches(p, log[i], v) && !Erases(ed, v)
    ensures Touches(ed, log[i]) && p.kind == Respelled(log[i].kind)
  {
    ghost var r;
    i, r := PieceOrigin(log, ids, ed, now, p);
    PieceNotErased(ed, log[i], r, v);
    PieceMatches(ed, log[i], r, now, v);
  }

  lemma RowOrigin(log: seq<Entry>, sel: Selection, ids: seq<nat>, ed: Edit, now: Ms, j: nat, v: Ms) returns (i: nat)
    requires Listing(log, sel, ids) && WellFormed(ed) && Exact(log, ed, v)
    requires j < |Rewrite(log, ids, ed, now)|
    requires Open(Rewrite(log, ids, ed, now)[j]) && Covers(Rewrite(log, ids, ed, now)[j], v)
    ensures i < |log| && Matches(Rewrite(log, ids, ed, now)[j], log[i], v) && !(Selects(sel, log[i]) && Erases(ed, v))
    ensures Rewrite(log, ids, ed, now)[j].kind == KindAfter(sel, ed, log[i])
  {
    if j < |log| {
      i := j;
      if Selects(sel, log[i]) { ErasedOnlyIfTouched(ed, log[i], v); }
    } else {
      i := PieceRowOrigin(log, ids, ed, now, Pieces(log, ids, ed, now)[j - |log|], v);
    }
  }

  lemma RewriteKeeps(log: seq<Entry>, sel: Selection, ids: seq<nat>, ed: Edit, now: Ms, place: Selection, v: Ms)
    requires Listing(log, sel, ids) && Exact(log, ed, v)
    ensures ContentLeft(log, sel, ed, place, v) <= ContentAt(Rewrite(log, ids, ed, now), place, v)
  {
    forall c | c in ContentLeft(log, sel, ed, place, v) ensures c in ContentAt(Rewrite(log, ids, ed, now), place, v) {
      var i: nat :| i < |log| && BelievedAt(log[i], place, v) && !(Selects(sel, log[i]) && Erases(ed, v))
        && Content(log[i]) == c;
      var j := RowSurvives(log, sel, ids, ed, now, i, v);
      assert BelievedAt(Rewrite(log, ids, ed, now)[j], place, v);
    }
  }

  // Every write, at every such point: what it erases of the rows it selected is gone, and
  // everything else the store believed is still believed, content unchanged.
  lemma RewriteContent(log: seq<Entry>, sel: Selection, ids: seq<nat>, ed: Edit, now: Ms, place: Selection, v: Ms)
    requires Listing(log, sel, ids) && WellFormed(ed) && Exact(log, ed, v)
    ensures ContentAt(Rewrite(log, ids, ed, now), place, v) == ContentLeft(log, sel, ed, place, v)
  {
    RewriteKeeps(log, sel, ids, ed, now, place, v);
    var after := Rewrite(log, ids, ed, now);
    forall c | c in ContentAt(after, place, v) ensures c in ContentLeft(log, sel, ed, place, v) {
      var j :| 0 <= j < |after| && BelievedAt(after[j], place, v) && Content(after[j]) == c;
      var i := RowOrigin(log, sel, ids, ed, now, j, v);
      assert BelievedAt(log[i], place, v);
    }
  }

  // ---- Under which name a kind is stored ----

  // The texts stored as kinds, as queries by kind compare them.
  ghost function KindsAt(log: seq<Entry>, place: Selection, v: Ms): set<string> {
    set i | 0 <= i < |log| && BelievedAt(log[i], place, v) :: log[i].kind
  }

  ghost function KindsLeft(log: seq<Entry>, sel: Selection, ed: Edit, place: Selection, v: Ms): set<string> {
    set i | 0 <= i < |log| && BelievedAt(log[i], place, v) && !(Selects(sel, log[i]) && Erases(ed, v)) ::
      KindAfter(sel, ed, log[i])
  }

  // Every row a write cuts, and no other, is stored under its kind's current name from then on.
  lemma RewriteKinds(log: seq<Entry>, sel: Selection, ids: seq<nat>, ed: Edit, now: Ms, place: Selection, v: Ms)
    requires Listing(log, sel, ids) && WellFormed(ed) && Exact(log, ed, v)
    ensures KindsAt(Rewrite(log, ids, ed, now), place, v) == KindsLeft(log, sel, ed, place, v)
  {
    var after := Rewrite(log, ids, ed, now);
    forall t | t in KindsLeft(log, sel, ed, place, v) ensures t in KindsAt(after, place, v) {
      var i: nat :| i < |log| && BelievedAt(log[i], place, v) && !(Selects(sel, log[i]) && Erases(ed, v))
        && KindAfter(sel, ed, log[i]) == t;
      var j := RowSurvives(log, sel, ids, ed, now, i, v);
      assert BelievedAt(after[j], place, v);
    }
    forall t | t in KindsAt(after, place, v) ensures t in KindsLeft(log, sel, ed, place, v) {
      var j :| 0 <= j < |after| && BelievedAt(after[j], place, v) && after[j].kind == t;
      var i := RowOrigin(log, sel, ids, ed, now, j, v);
      assert BelievedAt(log[i], place, v);
    }
  }

  lemma BodiesAreContents(log: seq<Entry>, place: Selection, v: Ms)
    ensures BodiesAt(log, place, v) == set c | c in ContentAt(log, place, v) :: c.body
  {
    forall i | 0 <= i < |log| && BelievedAt(log[i], place, v)
      ensures log[i].body in set c | c in ContentAt(log, place, v) :: c.body
    {
      assert Content(log[i]) in ContentAt(log, place, v);
    }
  }
}
