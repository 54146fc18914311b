// What writes confined to one scope change about the graph of a reader fenced off from it.
module Fences {
  import opened Records
  import opened Timeline
  import opened Beliefs
  import opened Runs
  import opened Visibility
  import opened Reads

  // ---- Which uris the reader may walk through ----

  function Elsewhere(ws: string): Entry -> bool {
    (e: Entry) => e.scope != ws
  }

  // The rows of all other scopes.
  function Outside(log: seq<Entry>, ws: string): seq<Entry> {
    Filter(Elsewhere(ws), log)
  }

  lemma OutsideHas(log: seq<Entry>, ws: string, e: Entry)
    ensures e in Outside(log, ws) <==> e in log && e.scope != ws
  {
    FilterHas(Elsewhere(ws), log, e);
  }

  // The scope holds an open row of the uri, or the last row recorded for it.
  ghost predicate Claims(log: seq<Entry>, ws: string, uri: string) {
    || (exists i :: 0 <= i < |log| && Open(log[i]) && log[i].uri == uri && log[i].scope == ws)
    || (exists i: nat :: LastRecorded(log, uri, i) && log[i].scope == ws)
  }

  lemma LiveOutside(log: seq<Entry>, ws: string, uri: string)
    ensures Live(Outside(log, ws), uri)
      <==> exists i :: 0 <= i < |log| && Open(log[i]) && log[i].uri == uri && log[i].scope != ws
  {
    var out := Outside(log, ws);
    if Live(out, uri) {
      var j :| 0 <= j < |out| && Open(out[j]) && out[j].uri == uri;
      OutsideHas(log, ws, out[j]);
    }
    if i :| 0 <= i < |log| && Open(log[i]) && log[i].uri == uri && log[i].scope != ws {
      OutsideHas(log, ws, log[i]);
    }
  }

  lemma NewestSnoc(log: seq<Entry>, e: Entry, uri: string)
    ensures Newest(log + [e], uri) ==
      if e.uri == uri && (Newest(log, uri).None? || Newer(e, Newest(log, uri).value)) then Some(e)
      else Newest(log, uri)
  {
    assert (log + [e])[..|log|] == log;
  }

  // `all` is the newest row of a uri nobody holds, `out` the newest one outside the scope.
  predicate Apart(all: Option<Entry>, out: Option<Entry>, ws: string) {
    && (all.None? ==> out.None?) && (all.Some? && all.value.scope != ws ==> out == all)
    && (all.Some? ==> !Open(all.value)) && (out.Some? ==> !Open(out.value))
    && (all.Some? && out.Some? ==> all.value.systemFrom >= out.value.systemFrom)
  }

  lemma ApartSnoc(log: seq<Entry>, out: seq<Entry>, e: Entry, ws: string, uri: string)
    requires Apart(Newest(log, uri), Newest(out, uri), ws) && (e.uri == uri ==> !Open(e))
    ensures Apart(Newest(log + [e], uri), Newest(if e.scope != ws then out + [e] else out, uri), ws)
  {
    NewestSnoc(log, e, uri);
    NewestSnoc(out, e, uri);
  }

  // Of a uri nobody holds, the last row recorded outside the scope is the last one of all, unless
  // that is the scope's own.
  lemma {:induction false} NewestOutside(log: seq<Entry>, ws: string, uri: string)
    requires !Live(log, uri)
    ensures Apart(Newest(log, uri), Newest(Outside(log, ws), uri), ws)
  {
    if log != [] {
      var front, last := log[..|log| - 1], log[|log| - 1];
      assert forall i :: 0 <= i < |front| ==> front[i] == log[i];
      assert log == front + [last];
      NewestOutside(front, ws, uri);
      ApartSnoc(front, Outside(front, ws), last, ws, uri);
      if last.scope != ws {
        FilterTakes(Elsewhere(ws), front, last);
      } else {
        FilterSkips(Elsewhere(ws), front, last);
      }
    }
  }

  lemma ThroughFenceLive(log: seq<Entry>, view: View, ws: string, uri: string)
    requires Canonical(view) && FencedOff(view, ws) && Live(log, uri)
    ensures ScopeVisible(log, view, uri) <==> Live(Outside(log, ws), uri) && ScopeVisible(Outside(log, ws), view, uri)
  {
    var out := Outside(log, ws);
    LiveUriVisible(log, view, uri);
    LiveOutside(log, ws, uri);
    if i :| 0 <= i < |log| && log[i].uri == uri && Open(log[i]) && RowOk(view, log[i]) {
      OutsideHas(log, ws, log[i]);
      LiveUriVisible(out, view, uri);
    }
    if Live(out, uri) {
      LiveUriVisible(out, view, uri);
      if j :| 0 <= j < |out| && out[j].uri == uri && Open(out[j]) && RowOk(view, out[j]) {
        OutsideHas(log, ws, out[j]);
      }
    }
  }

  lemma ThroughFenceDead(log: seq<Entry>, view: View, ws: string, uri: string)
    requires Canonical(view) && FencedOff(view, ws) && !Live(log, uri)
    ensures ScopeVisible(log, view, uri) <==> ScopeVisible(Outside(log, ws), view, uri) && !Claims(log, ws, uri)
  {
    var at := NewestOfDead(log, uri);
    LiveOutside(log, ws, uri);
    NewestOutside(log, ws, uri);
    if at.Some? {
      assert forall j: nat :: LastRecorded(log, uri, j) ==> j == at.value;
    }
  }

  // A reader fenced off from a scope may walk through a uri exactly when it might if the scope's
  // rows were not there, and the scope does not claim the uri or somebody outside holds it.
  lemma ThroughFence(log: seq<Entry>, view: View, ws: string, uri: string)
    requires Canonical(view) && FencedOff(view, ws)
    ensures ScopeVisible(log, view, uri) <==>
      ScopeVisible(Outside(log, ws), view, uri) && (Live(Outside(log, ws), uri) || !Claims(log, ws, uri))
  {
    LiveOutside(log, ws, uri);
    if Live(log, uri) {
      ThroughFenceLive(log, view, ws, uri);
    } else {
      ThroughFenceDead(log, view, ws, uri);
    }
  }

  // So a run confined to the scope changes whether the reader may walk through a uri exactly when
  // nobody outside holds the uri, the reader might walk through it otherwise, and the run starts
  // or ends the scope's claim.
  lemma FencedGraph(s: Tables, evs: seq<Event>, ws: string, view: View, uri: string)
    requires Legal(s, evs) && forall k :: 0 <= k < |evs| ==> ConfinedWrite(evs[k].write, ws)
    requires Canonical(view) && FencedOff(view, ws)
    ensures ScopeVisible(Run(s, evs).log, view, uri) != ScopeVisible(s.log, view, uri) <==>
      && !Live(Outside(s.log, ws), uri) && ScopeVisible(Outside(s.log, ws), view, uri)
      && Claims(s.log, ws, uri) != Claims(Run(s, evs).log, ws, uri)
  {
    RunConfined(s, evs, ws);
    FilterConfined(Elsewhere(ws), s.log, Run(s, evs).log, ws);
    ThroughFence(s.log, view, ws, uri);
    ThroughFence(Run(s, evs).log, view, ws, uri);
  }

  // Whatever a put in the scope records under a uri leaves the reader those uris only that somebody
  // outside holds: a first row there takes a uri nobody has written off its graph.
  lemma PutClaims(s: Tables, ev: Event, ws: string, view: View)
    requires Enabled(s, ev) && ev.write.Put? && !Rejected(ev.write) && !Already(s.log, ev.write.e)
    requires ev.write.e.scope == ws && Canonical(view) && FencedOff(view, ws)
    ensures var uri := ev.write.e.uri;
      ScopeVisible(Apply(s, ev).log, view, uri) <==>
        Live(Outside(s.log, ws), uri) && ScopeVisible(Outside(s.log, ws), view, uri)
    ensures (forall i :: 0 <= i < |s.log| ==> s.log[i].uri != ev.write.e.uri) ==>
      ScopeVisible(s.log, view, ev.write.e.uri) && !ScopeVisible(Apply(s, ev).log, view, ev.write.e.uri)
  {
    var e, after := ev.write.e, Apply(s, ev).log;
    assert after[|after| - 1] == Inserted(e, ev.now);
    StepConfined(s, ev, ws);
    FilterConfined(Elsewhere(ws), s.log, after, ws);
    ThroughFence(after, view, ws, e.uri);
    if forall i :: 0 <= i < |s.log| ==> s.log[i].uri != e.uri {
      DeadUriVisible(s.log, view, e.uri);
      LiveOutside(s.log, ws, e.uri);
    }
  }

  // ---- Which edges it is served ----

  predicate EndsVisible(log: seq<Entry>, view: View, e: Edge) {
    ScopeVisible(log, view, e.fromUri) && ScopeVisible(log, view, e.toUri)
  }

  predicate Served(s: Tables, view: View, e: Edge) {
    e in s.edges && EndsVisible(s.log, view, e)
  }

  lemma DetachedUnseen(s: Tables, ev: Event, ws: string, view: View, e: Edge)
    requires Enabled(s, ev) && Edits(ev.write) && ConfinedWrite(ev.write, ws) && Canonical(view) && FencedOff(view, ws)
    requires e in s.edges && e !in Apply(s, ev).edges
    ensures !EndsVisible(s.log, view, e)
  {
    var uri := ev.write.uri;
    var i :| i in ev.ids && i < |s.log| && Touches(EditOf(ev.write), s.log[i]);
    assert Open(s.log[i]) && s.log[i].uri == uri && s.log[i].scope == ws;
    StepConfined(s, ev, ws);
    FilterConfined(Elsewhere(ws), s.log, Apply(s, ev).log, ws);
    LiveOutside(Apply(s, ev).log, ws, uri);
    ThroughFence(s.log, view, ws, uri);
  }

  // A put, forget or invalidate confined to the scope changes whether the reader is served an edge
  // exactly when it leaves the edge and changes whether both ends may be walked through: an edge
  // that its cascade removes was not served to the reader before.
  lemma FencedEdge(s: Tables, ev: Event, ws: string, view: View, e: Edge)
    requires Enabled(s, ev) && Edits(ev.write) && ConfinedWrite(ev.write, ws) && Canonical(view) && FencedOff(view, ws)
    ensures Served(Apply(s, ev), view, e) != Served(s, view, e) <==>
      e in Apply(s, ev).edges && EndsVisible(Apply(s, ev).log, view, e) != EndsVisible(s.log, view, e)
  {
    if e in s.edges && e !in Apply(s, ev).edges { DetachedUnseen(s, ev, ws, view, e); }
  }

  lemma HeldStays(log: seq<Entry>, after: seq<Entry>, view: View, ws: string, uri: string)
    requires Canonical(view) && FencedOff(view, ws) && Outside(after, ws) == Outside(log, ws)
    requires Live(Outside(log, ws), uri)
    ensures ScopeVisible(after, view, uri) == ScopeVisible(log, view, uri)
  {
    ThroughFence(log, view, ws, uri);
    ThroughFence(after, view, ws, uri);
  }

  // The edges between uris that somebody outside holds stay as they are over every such run.
  lemma {:induction false} FencedEdges(s: Tables, evs: seq<Event>, ws: string, view: View, e: Edge)
    requires Legal(s, evs) && Canonical(view) && FencedOff(view, ws)
    requires forall k :: 0 <= k < |evs| ==> Edits(evs[k].write) && ConfinedWrite(evs[k].write, ws)
    requires Live(Outside(s.log, ws), e.fromUri) && Live(Outside(s.log, ws), e.toUri)
    ensures Served(Run(s, evs), view, e) == Served(s, view, e)
    decreases |evs|
  {
    if evs != [] {
      var next := Apply(s, evs[0]);
      StepConfined(s, evs[0], ws);
      FilterConfined(Elsewhere(ws), s.log, next.log, ws);
      HeldStays(s.log, next.log, view, ws, e.fromUri);
      HeldStays(s.log, next.log, view, ws, e.toUri);
      FencedEdge(s, evs[0], ws, view, e);
      FencedEdges(next, evs[1..], ws, view, e);
    }
  }
}
