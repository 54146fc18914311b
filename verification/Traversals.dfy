// The two traversals side by side, over the graph a reader sees.
module Traversals {
  import opened Records
  import opened Walks
  import opened Visibility
  import Runs
  import Reads
  import Neighbors
  import Scored

  // ---- What a reader can come upon ----

  function ReaderNet(s: Runs.Tables, view: View): Net {
    Net(s.edges, uri => Reads.ScopeVisible(s.log, view, uri))
  }

  lemma {:induction false} Entered(net: Net, from: set<string>, k: nat, n: string)
    requires n in Ball(net, from, k) && n !in from
    ensures net.visible(n)
  {
    if n in Ball(net, from, k - 1) { Entered(net, from, k - 1, n); }
  }

  // However the walk goes, a live uri it reaches has an open row that passes the reader's gates.
  lemma ReachedIsVisible(s: Runs.Tables, view: View, from: set<string>, k: nat, n: string)
    requires Canonical(view) && n in Ball(ReaderNet(s, view), from, k) && n !in from && Runs.Live(s.log, n)
    ensures exists i :: 0 <= i < |s.log| && s.log[i].uri == n && Open(s.log[i]) && RowOk(view, s.log[i])
  {
    Entered(ReaderNet(s, view), from, k, n);
    Reads.LiveUriVisible(s.log, view, n);
  }

  // ---- The same nodes ----

  // `plain` is what the plain traversal answers to the same question.
  ghost predicate PlainAnswer(q: Scored.Quest, depth: nat, plain: seq<string>) {
    Neighbors.Nearby(q.net, Scored.SeedSet(q.seeds), depth, q.limit, plain)
  }

  // What each has to answer, were it not for the limit. The plain one walks out of every seed, the
  // scored one out of those the reader may see.
  ghost function PlainNodes(q: Scored.Quest, depth: nat): set<string> {
    Ball(q.net, Scored.SeedSet(q.seeds), depth) - Scored.SeedSet(q.seeds)
  }

  ghost function ScoredNodes(q: Scored.Quest, bound: nat): set<string> {
    Ball(q.net, Scored.Sources(q), bound) - Scored.SeedSet(q.seeds)
  }

  lemma ScoredWithinPlain(q: Scored.Quest, bound: nat, depth: nat)
    requires bound <= depth
    ensures ScoredNodes(q, bound) <= PlainNodes(q, depth) && |ScoredNodes(q, bound)| <= |PlainNodes(q, depth)|
  {
    BallMonotone(q.net, Scored.Sources(q), Scored.SeedSet(q.seeds), bound);
    BallGrows(q.net, Scored.SeedSet(q.seeds), bound, depth);
    SubsetSize(ScoredNodes(q, bound), PlainNodes(q, depth));
  }

  lemma {:induction false} SizeOfMembers(s: seq<string>)
    requires Neighbors.NoDuplicates(s)
    ensures |set n | n in s| == |s|
  {
    if s != [] {
      var front, last := s[..|s| - 1], s[|s| - 1];
      SizeOfMembers(front);
      assert forall n :: n in s <==> n in front || n == last;
      assert (set n | n in s) == (set n | n in front) + {last};
    }
  }

  // Each answers with as many nodes as it has, or as the limit lets through: all of them below it.
  lemma PlainCounts(q: Scored.Quest, depth: nat, plain: seq<string>)
    requires PlainAnswer(q, depth, plain)
    ensures |plain| == if q.limit < |PlainNodes(q, depth)| then q.limit else |PlainNodes(q, depth)|
    ensures |plain| < q.limit ==> (set n | n in plain) == PlainNodes(q, depth)
  {
    SizeOfMembers(plain);
    SubsetSize((set n | n in plain), PlainNodes(q, depth));
    if |plain| < q.limit { assert (set n | n in plain) == PlainNodes(q, depth); }
  }

  lemma HitInScored(q: Scored.Quest, best: map<string, Scored.Hit>, bound: nat, n: string)
    requires Scored.Hits(q, best, bound) && n in best
    ensures n in ScoredNodes(q, bound)
  {
    Scored.HitAt(q, best, bound, n);
    Scored.HitWithin(q, best, bound, bound, n);
  }

  lemma ScoredCounts(q: Scored.Quest, out: seq<Scored.Hit>, best: map<string, Scored.Hit>, bound: nat)
    requires Scored.Answers(q, out, best, bound)
    ensures |out| == if q.limit < |ScoredNodes(q, bound)| then q.limit else |ScoredNodes(q, bound)|
    ensures |out| < q.limit ==> best.Keys == ScoredNodes(q, bound)
  {
    forall n | n in best ensures n in ScoredNodes(q, bound) { HitInScored(q, best, bound, n); }
    SubsetSize(best.Keys, ScoredNodes(q, bound));
    if |out| < q.limit {
      forall n | n in ScoredNodes(q, bound) ensures n in best { Scored.CompleteHas(q, best, bound, n); }
      assert best.Keys == ScoredNodes(q, bound);
    }
  }

  // Uncut, the plain traversal lists every scored hit, whatever seeds the reader may see and
  // however deep the scored walk was meant to go.
  lemma ScoredIn(q: Scored.Quest, depth: nat, plain: seq<string>, out: seq<Scored.Hit>, best: map<string, Scored.Hit>,
      bound: nat, h: Scored.Hit)
    requires PlainAnswer(q, depth, plain) && |plain| < q.limit
    requires Scored.Answers(q, out, best, bound) && bound <= depth && h in out
    ensures h.uri in plain
  {
    Scored.ScoredReachesNoMore(q, out, best, bound, h);
    BallGrows(q.net, Scored.SeedSet(q.seeds), bound, depth);
    Scored.HitIsNoSeed(q, best, bound, h.uri);
  }

  // One is cut by the limit and the other not exactly when the limit lies between what they have to
  // answer; so the scored one is never cut alone.
  lemma CutAlike(q: Scored.Quest, depth: nat, plain: seq<string>, out: seq<Scored.Hit>, best: map<string, Scored.Hit>,
      bound: nat)
    requires PlainAnswer(q, depth, plain) && Scored.Answers(q, out, best, bound) && bound <= depth
    ensures |plain| < q.limit ==> |out| < q.limit
    ensures (|plain| < q.limit <==> |out| < q.limit)
      <==> !(|ScoredNodes(q, bound)| < q.limit <= |PlainNodes(q, depth)|)
  {
    PlainCounts(q, depth, plain);
    ScoredCounts(q, out, best, bound);
    ScoredWithinPlain(q, bound, depth);
  }

  ghost predicate Listed(out: seq<Scored.Hit>, n: string) {
    exists h :: h in out && h.uri == n
  }

  // The two answers list the same nodes.
  ghost predicate SameNodes(plain: seq<string>, out: seq<Scored.Hit>) {
    forall n {:trigger Listed(out, n)} :: n in plain <==> Listed(out, n)
  }

  lemma BoundBelow(depth: nat)
    ensures Scored.Bound(depth) <= depth
  {
  }

  // While the plain one is uncut, they list the same nodes exactly when they have the same to
  // answer: nothing hangs off an invisible seed, or lies between the depth and the depth cut to 32
  // bits, that the scored walk does not reach as well.
  lemma TraversalsAgree(q: Scored.Quest, depth: nat, plain: seq<string>, out: seq<Scored.Hit>,
      best: map<string, Scored.Hit>)
    requires PlainAnswer(q, depth, plain) && |plain| < q.limit && Scored.Answers(q, out, best, Scored.Bound(depth))
    ensures |out| < q.limit
    ensures SameNodes(plain, out) <==> PlainNodes(q, depth) == ScoredNodes(q, Scored.Bound(depth))
  {
    var bound := Scored.Bound(depth);
    BoundBelow(depth);
    CutAlike(q, depth, plain, out, best, bound);
    PlainCounts(q, depth, plain);
    forall n
      ensures n in plain <==> n in PlainNodes(q, depth)
      ensures Listed(out, n) <==> n in ScoredNodes(q, bound)
    {
      Scored.AnswerIsComplete(q, out, best, bound, n);
      assert n in plain <==> n in (set m | m in plain);
    }
    if SameNodes(plain, out) {
      forall n ensures n in PlainNodes(q, depth) <==> n in ScoredNodes(q, bound) {
        assert n in plain <==> Listed(out, n);
      }
    }
  }

  // ---- Seeds the reader may see ----

  ghost predicate SeedsVisible(q: Scored.Quest) {
    forall k :: 0 <= k < |q.seeds| ==> q.net.visible(q.seeds[k].0)
  }

  lemma AllSources(q: Scored.Quest)
    requires SeedsVisible(q)
    ensures Scored.Sources(q) == Scored.SeedSet(q.seeds)
  {
  }

  lemma ShallowBound(depth: nat)
    requires depth < 0x1_0000_0000
    ensures Scored.Bound(depth) == depth
  {
  }

  // With seeds the reader may see, they list the same nodes exactly when nothing lies between the
  // depth and the depth cut to 32 bits; so always at a depth below 2^32.
  lemma VisibleTraversalsAgree(q: Scored.Quest, depth: nat, plain: seq<string>, out: seq<Scored.Hit>,
      best: map<string, Scored.Hit>)
    requires PlainAnswer(q, depth, plain) && SeedsVisible(q) && |plain| < q.limit
    requires Scored.Answers(q, out, best, Scored.Bound(depth))
    ensures SameNodes(plain, out) <==>
      Ball(q.net, Scored.Sources(q), depth) == Ball(q.net, Scored.Sources(q), Scored.Bound(depth))
    ensures depth < 0x1_0000_0000 ==> SameNodes(plain, out)
  {
    var from, bound := Scored.Sources(q), Scored.Bound(depth);
    TraversalsAgree(q, depth, plain, out, best);
    AllSources(q);
    BallGrows(q.net, from, 0, depth);
    BallGrows(q.net, from, 0, bound);
    assert PlainNodes(q, depth) + from == Ball(q.net, from, depth);
    assert ScoredNodes(q, bound) + from == Ball(q.net, from, bound);
    if depth < 0x1_0000_0000 { ShallowBound(depth); }
  }

  // ---- A seed the reader may not see ----

  // One seed and one node joined to it; the reader may see only the node.
  function HiddenSeed(w: real, decay: real, limit: nat): Scored.Quest {
    Scored.Quest(Net({Edge("s", "n", "links")}, u => u == "n"), [("s", w)], decay, limit)
  }

  lemma HiddenSeedNodes(w: real, decay: real, limit: nat, depth: nat, bound: nat)
    requires depth > 0
    ensures "n" in PlainNodes(HiddenSeed(w, decay, limit), depth)
    ensures ScoredNodes(HiddenSeed(w, decay, limit), bound) == {}
  {
    var q := HiddenSeed(w, decay, limit);
    var from := Scored.SeedSet(q.seeds);
    assert "s"[0] != "n"[0] && q.seeds[0].0 in from;
    assert Scored.Sources(q) == {};
    BallOfNothing(q.net, bound);
    assert Edge("s", "n", "links") in q.net.edges;
    StepLevel(q.net, from, "s", "n", 0);
    BallGrows(q.net, from, 1, depth);
  }

  lemma OnlyNode(q: Scored.Quest, depth: nat, plain: seq<string>, n: string)
    requires q.limit > 0 && PlainAnswer(q, depth, plain) && n in PlainNodes(q, depth)
    requires forall u :: q.net.visible(u) ==> u == n
    ensures n in plain
  {
    if plain == [] {
      PlainCounts(q, depth, plain);
    } else {
      Entered(q.net, Scored.SeedSet(q.seeds), depth, plain[0]);
    }
  }

  // The plain traversal walks out of such a seed and lists the node, the scored one does not.
  lemma HiddenSeedBridges(w: real, decay: real, limit: nat, depth: nat, plain: seq<string>, out: seq<Scored.Hit>,
      best: map<string, Scored.Hit>)
    requires limit > 0 && depth > 0 && PlainAnswer(HiddenSeed(w, decay, limit), depth, plain)
    requires Scored.Answers(HiddenSeed(w, decay, limit), out, best, Scored.Bound(depth))
    ensures "n" in plain && out == [] && !SameNodes(plain, out)
  {
    var q := HiddenSeed(w, decay, limit);
    HiddenSeedNodes(w, decay, limit, depth, Scored.Bound(depth));
    OnlyNode(q, depth, plain, "n");
    ScoredCounts(q, out, best, Scored.Bound(depth));
    assert !Listed(out, "n");
  }

  // ---- A depth that wraps ----

  // The scored walk returns nothing exactly when the limit is zero or its cut depth reaches no
  // further than the seeds; at a multiple of 2^32 it always does.
  lemma WrappedDepthFindsNothing(q: Scored.Quest, depth: nat, out: seq<Scored.Hit>, best: map<string, Scored.Hit>)
    requires Scored.Answers(q, out, best, Scored.Bound(depth))
    ensures out == [] <==> q.limit == 0 || ScoredNodes(q, Scored.Bound(depth)) == {}
    ensures depth % 0x1_0000_0000 == 0 ==> out == []
  {
    ScoredCounts(q, out, best, Scored.Bound(depth));
  }
}
