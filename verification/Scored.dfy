// The scored traversal of src/store.rs: a level-order walk that fixes a node's hop on first
// arrival, upgrades its score on later arrivals, and expands every node once. Weights are real
// numbers.
module Scored {
  import opened Records
  import opened Walks

  datatype Hit = Hit(uri: string, hop: nat, via: string, rel: string, score: real)

  // One traversal: the reader's graph, the weighted seeds, the decay per hop and the cap.
  datatype Quest = Quest(net: Net, seeds: seq<(string, real)>, decay: real, limit: nat)

  function Pow(x: real, n: nat): real {
    if n == 0 then 1.0 else Pow(x, n - 1) * x
  }

  function SeedSet(seeds: seq<(string, real)>): set<string> {
    set k | 0 <= k < |seeds| :: seeds[k].0
  }

  // The seeds the reader may see: the edges of any other are not served.
  function Sources(q: Quest): set<string> {
    set s | s in SeedSet(q.seeds) && q.net.visible(s)
  }

  // ---- What a score means ----

  // `w` is what some visible seed weighs at `u` after `d` steps.
  ghost predicate Weighs(q: Quest, u: string, d: nat, w: real)
    decreases d
  {
    if d == 0 then (u, w) in q.seeds && q.net.visible(u)
    else var e := d - 1; exists t, x :: Weighs(q, t, e, x) && Step(q.net, t, u) && w == x * q.decay
  }

  lemma WeighsStep(q: Quest, u: string, n: string, d: nat, w: real)
    requires Weighs(q, u, d, w) && Step(q.net, u, n)
    ensures Weighs(q, n, d + 1, w * q.decay)
  {
  }

  lemma Decayed(s: real, x: real, d: nat)
    ensures s * Pow(x, d) * x == s * Pow(x, d + 1)
  {
  }

  // That is: the seed's weight decayed once per step of an actual walk of `d` steps from it.
  lemma {:induction false} WeighsIsWalk(q: Quest, u: string, d: nat, w: real) returns (k: nat, p: seq<string>)
    requires Weighs(q, u, d, w)
    ensures k < |q.seeds| && q.net.visible(q.seeds[k].0) && WalkTo(q.net, {q.seeds[k].0}, p, u) && |p| == d + 1
    ensures w == q.seeds[k].1 * Pow(q.decay, d)
    decreases d
  {
    if d == 0 {
      k :| k < |q.seeds| && q.seeds[k] == (u, w);
      p := [u];
    } else {
      var t, x :| Weighs(q, t, d - 1, x) && Step(q.net, t, u) && w == x * q.decay;
      k, p := WeighsIsWalk(q, t, d - 1, x);
      WalkSnoc(q.net, {q.seeds[k].0}, p, t, u);
      Decayed(q.seeds[k].1, q.decay, d - 1);
      p := p + [u];
    }
  }

  predicate Labelled(edges: set<Edge>, a: string, b: string, rel: string) {
    Edge(a, b, rel) in edges || Edge(b, a, rel) in edges
  }

  // Seeds are at hop 0.
  function HopOf(best: map<string, Hit>, u: string): nat {
    if u in best then best[u].hop else 0
  }

  // A score is what some seed weighs at `via`, decayed once more ...
  ghost predicate Earned(q: Quest, best: map<string, Hit>, h: Hit) {
    exists w :: Weighs(q, h.via, HopOf(best, h.via), w) && h.score == w * q.decay
  }

  // ... and never less than what some seed weighs over a shortest walk.
  ghost predicate AtLeastShortest(q: Quest, h: Hit) {
    exists w :: Weighs(q, h.uri, h.hop, w) && w <= h.score
  }

  ghost predicate HitOk(q: Quest, best: map<string, Hit>, h: Hit) {
    && h.uri !in SeedSet(q.seeds) && h.hop >= 1 && AtLevel(q.net, Sources(q), h.uri, h.hop)
    && (h.via in Sources(q) || h.via in best) && Step(q.net, h.via, h.uri) && Labelled(q.net.edges, h.via, h.uri, h.rel)
    && Earned(q, best, h) && AtLeastShortest(q, h)
  }

  ghost predicate Good(q: Quest, best: map<string, Hit>, n: string, upTo: nat) {
    n in best && best[n].uri == n && best[n].hop <= upTo && HitOk(q, best, best[n])
  }

  // (A hit names the hit it came from, so without the trigger the chain would be followed.)
  ghost predicate Hits(q: Quest, best: map<string, Hit>, upTo: nat) {
    |best| <= q.limit && forall n {:trigger Good(q, best, n, upTo)} :: n in best ==> Good(q, best, n, upTo)
  }

  lemma HitAt(q: Quest, best: map<string, Hit>, upTo: nat, n: string)
    requires Hits(q, best, upTo) && n in best
    ensures Good(q, best, n, upTo)
  {
  }

  ghost predicate NoSeeds(q: Quest, best: map<string, Hit>) {
    forall n :: n in best ==> n !in SeedSet(q.seeds)
  }

  lemma HitsAreNoSeeds(q: Quest, best: map<string, Hit>, upTo: nat)
    requires Hits(q, best, upTo)
    ensures NoSeeds(q, best)
  {
    forall n | n in best ensures n !in SeedSet(q.seeds) { HitAt(q, best, upTo, n); }
  }

  ghost predicate GrowsAt(best: map<string, Hit>, best': map<string, Hit>, n: string) {
    n in best && n in best' && best'[n].hop == best[n].hop && best'[n].score >= best[n].score
  }

  // Later states keep every node and its hop, and never lower a score.
  ghost predicate Grows(best: map<string, Hit>, best': map<string, Hit>) {
    forall n {:trigger GrowsAt(best, best', n)} :: n in best ==> GrowsAt(best, best', n)
  }

  lemma GrowsKeeps(best: map<string, Hit>, best': map<string, Hit>, n: string)
    requires Grows(best, best') && n in best
    ensures n in best' && best'[n].hop == best[n].hop && best'[n].score >= best[n].score
  {
    assert GrowsAt(best, best', n);
  }

  // ---- One arrival ----

  // `u` was reached in `d` steps, weighing `w`.
  ghost predicate Arrived(q: Quest, best: map<string, Hit>, u: string, d: nat, w: real) {
    && u in Ball(q.net, Sources(q), d) && HopOf(best, u) == d && (u in Sources(q) || u in best) && Weighs(q, u, d, w)
  }

  ghost predicate KeepsHops(best: map<string, Hit>, best': map<string, Hit>) {
    forall n :: n in best ==> n in best' && best'[n].hop == best[n].hop
  }

  lemma HitStays(q: Quest, best: map<string, Hit>, best': map<string, Hit>, h: Hit)
    requires HitOk(q, best, h) && KeepsHops(best, best') && NoSeeds(q, best')
    ensures HitOk(q, best', h)
  {
    assert HopOf(best', h.via) == HopOf(best, h.via);
  }

  lemma InsertSize(best: map<string, Hit>, n: string, h: Hit)
    ensures |best[n := h]| == if n in best then |best| else |best| + 1
  {
    if n in best {
      assert best[n := h].Keys == best.Keys;
    } else {
      assert best[n := h].Keys == best.Keys + {n};
    }
  }

  lemma HitsWith(q: Quest, best: map<string, Hit>, n: string, h: Hit, upTo: nat)
    requires Hits(q, best, upTo) && h.uri == n && n !in SeedSet(q.seeds) && h.hop <= upTo
    requires n in best ==> best[n].hop == h.hop
    requires n !in best ==> |best| < q.limit
    requires HitOk(q, best, h)
    ensures Hits(q, best[n := h], upTo)
  {
    InsertSize(best, n, h);
    HitsAreNoSeeds(q, best, upTo);
    var best' := best[n := h];
    forall m | m in best' ensures Good(q, best', m, upTo) {
      if m == n {
        HitStays(q, best, best', h);
      } else {
        HitAt(q, best, upTo, m);
        HitStays(q, best, best', best[m]);
      }
    }
  }

  lemma EarnedBy(q: Quest, best: map<string, Hit>, h: Hit, w: real)
    requires Weighs(q, h.via, HopOf(best, h.via), w) && h.score == w * q.decay
    ensures Earned(q, best, h)
  {
  }

  lemma ShortestBy(q: Quest, h: Hit, w: real)
    requires Weighs(q, h.uri, h.hop, w) && w <= h.score
    ensures AtLeastShortest(q, h)
  {
  }

  lemma ShortestStays(q: Quest, h: Hit, better: Hit)
    requires AtLeastShortest(q, h) && better.uri == h.uri && better.hop == h.hop && h.score <= better.score
    ensures AtLeastShortest(q, better)
  {
    var w :| Weighs(q, h.uri, h.hop, w) && w <= h.score;
    ShortestBy(q, better, w);
  }

  lemma FirstArrival(q: Quest, best: map<string, Hit>, u: string, n: string, rel: string, d: nat, w: real)
    requires Arrived(q, best, u, d, w) && Step(q.net, u, n) && Labelled(q.net.edges, u, n, rel)
    requires n !in SeedSet(q.seeds) && n !in Ball(q.net, Sources(q), d)
    ensures HitOk(q, best, Hit(n, d + 1, u, rel, w * q.decay)) && Weighs(q, n, d + 1, w * q.decay)
  {
    var h := Hit(n, d + 1, u, rel, w * q.decay);
    StepLevel(q.net, Sources(q), u, n, d);
    WeighsStep(q, u, n, d, w);
    EarnedBy(q, best, h, w);
    ShortestBy(q, h, w * q.decay);
  }

  lemma Upgrade(q: Quest, best: map<string, Hit>, u: string, n: string, rel: string, d: nat, w: real)
    requires Arrived(q, best, u, d, w) && Step(q.net, u, n) && Labelled(q.net.edges, u, n, rel)
    requires n in best && best[n].uri == n && HitOk(q, best, best[n]) && w * q.decay > best[n].score
    ensures HitOk(q, best, best[n].(score := w * q.decay, via := u, rel := rel))
  {
    var h := best[n].(score := w * q.decay, via := u, rel := rel);
    EarnedBy(q, best, h, w);
    ShortestStays(q, best[n], h);
  }

  // ---- The walk ----

  predicate Touching(e: Edge, u: string) {
    e.fromUri == u || e.toUri == u
  }

  function Other(e: Edge, u: string): string {
    if e.fromUri == u then e.toUri else e.fromUri
  }

  // The edges served for `u`, each once, in no particular order: none when the reader may not see
  // `u`, and none to a uri it may not see.
  method EdgesOf(net: Net, u: string) returns (es: seq<Edge>)
    ensures forall e :: e in es <==> e in net.edges && Touching(e, u) && net.visible(u) && net.visible(Other(e, u))
  {
    es := [];
    var todo := set e | e in net.edges && Touching(e, u) && net.visible(u) && net.visible(Other(e, u));
    ghost var all := todo;
    while todo != {}
      invariant todo <= all && forall e :: e in all <==> e in todo || e in es
    {
      var e :| e in todo;
      es := es + [e];
      todo := todo - {e};
    }
  }

  predicate Present(q: Quest, best: map<string, Hit>, n: string) {
    n in SeedSet(q.seeds) || n in best
  }

  // Nothing within `d` steps is missing, unless the limit has been reached.
  ghost predicate Complete(q: Quest, best: map<string, Hit>, d: nat) {
    |best| < q.limit ==> forall n {:trigger Present(q, best, n)} :: n in Ball(q.net, Sources(q), d) ==>
      Present(q, best, n)
  }

  // Arriving at `n` from a node that weighs `w` has been taken into account.
  ghost predicate Settled(q: Quest, best: map<string, Hit>, u: string, w: real, n: string) {
    n == u || n in SeedSet(q.seeds) || (if n in best then best[n].score >= w * q.decay else |best| >= q.limit)
  }

  lemma SettledStays(q: Quest, best: map<string, Hit>, best': map<string, Hit>, u: string, w: real, n: string)
    requires Settled(q, best, u, w, n) && Grows(best, best') && |best| <= |best'|
    requires |best| >= q.limit ==> best'.Keys == best.Keys
    ensures Settled(q, best', u, w, n)
  {
    if n in best { GrowsKeeps(best, best', n); }
  }

  // The nodes first reached at `hop` wait in `next`, with what they weigh.
  ghost predicate WaitingAt(q: Quest, best: map<string, Hit>, node: (string, real), hop: nat) {
    node.0 in best && best[node.0].hop == hop && Weighs(q, node.0, hop, node.1)
  }

  predicate InFront(frontier: seq<(string, real)>, u: string) {
    exists i :: 0 <= i < |frontier| && frontier[i].0 == u
  }

  ghost predicate Awaited(best: map<string, Hit>, next: seq<(string, real)>, n: string, hop: nat) {
    n in best && best[n].hop == hop ==> InFront(next, n)
  }

  ghost predicate Waiting(q: Quest, best: map<string, Hit>, next: seq<(string, real)>, hop: nat) {
    && (forall i {:trigger WaitingAt(q, best, next[i], hop)} :: 0 <= i < |next| ==> WaitingAt(q, best, next[i], hop))
    && (forall n {:trigger Awaited(best, next, n, hop)} :: Awaited(best, next, n, hop))
  }

  lemma WaitingStays(q: Quest, best: map<string, Hit>, best': map<string, Hit>, next: seq<(string, real)>, hop: nat)
    requires Waiting(q, best, next, hop) && KeepsHops(best, best') && best'.Keys == best.Keys
    ensures Waiting(q, best', next, hop)
  {
    forall i | 0 <= i < |next| ensures WaitingAt(q, best', next[i], hop) { assert WaitingAt(q, best, next[i], hop); }
    forall n ensures Awaited(best', next, n, hop) { assert Awaited(best, next, n, hop); }
  }

  lemma WaitingWith(q: Quest, best: map<string, Hit>, next: seq<(string, real)>, hop: nat, h: Hit)
    requires Waiting(q, best, next, hop) && h.uri !in best && h.hop == hop && Weighs(q, h.uri, hop, h.score)
    ensures Waiting(q, best[h.uri := h], next + [(h.uri, h.score)], hop)
  {
    var best', next' := best[h.uri := h], next + [(h.uri, h.score)];
    forall i | 0 <= i < |next'| ensures WaitingAt(q, best', next'[i], hop) {
      if i < |next| { assert WaitingAt(q, best, next[i], hop); }
    }
    forall n ensures Awaited(best', next', n, hop) {
      assert Awaited(best, next, n, hop);
      if n == h.uri {
        assert next'[|next|].0 == n;
      } else if n in best && best[n].hop == hop {
        var i :| 0 <= i < |next| && next[i].0 == n;
        assert next'[i].0 == n;
      }
    }
  }

  lemma Improved(best: map<string, Hit>, n: string, h: Hit)
    requires n in best && h.hop == best[n].hop && h.score >= best[n].score
    ensures Grows(best, best[n := h]) && KeepsHops(best, best[n := h]) && best[n := h].Keys == best.Keys
  {
  }

  lemma UpgradeAt(q: Quest, best: map<string, Hit>, u: string, n: string, rel: string, d: nat, w: real, h: Hit,
      upTo: nat)
    requires Hits(q, best, upTo) && Arrived(q, best, u, d, w) && Step(q.net, u, n) && Labelled(q.net.edges, u, n, rel)
    requires n in best && w * q.decay > best[n].score && h == best[n].(score := w * q.decay, via := u, rel := rel)
    ensures HitOk(q, best, h) && h.uri == n && h.hop <= upTo
  {
    HitAt(q, best, upTo, n);
    Upgrade(q, best, u, n, rel, d, w);
  }

  lemma UpgradeHits(q: Quest, d: nat, u: string, w: real, n: string, rel: string, best: map<string, Hit>, h: Hit)
    requires Hits(q, best, d + 1) && Arrived(q, best, u, d, w)
    requires Step(q.net, u, n) && Labelled(q.net.edges, u, n, rel) && n in best && w * q.decay > best[n].score
    requires h == best[n].(score := w * q.decay, via := u, rel := rel)
    ensures Hits(q, best[n := h], d + 1)
  {
    UpgradeAt(q, best, u, n, rel, d, w, h, d + 1);
    HitsWith(q, best, n, h, d + 1);
  }

  lemma UpgradeWaits(q: Quest, best: map<string, Hit>, next: seq<(string, real)>, hop: nat, n: string, h: Hit)
    requires Waiting(q, best, next, hop) && n in best && h.hop == best[n].hop && h.score >= best[n].score
    ensures Waiting(q, best[n := h], next, hop) && Grows(best, best[n := h]) && best[n := h].Keys == best.Keys
  {
    Improved(best, n, h);
    WaitingStays(q, best, best[n := h], next, hop);
  }

  lemma CompleteHas(q: Quest, best: map<string, Hit>, d: nat, u: string)
    requires Complete(q, best, d) && |best| < q.limit && u in Ball(q.net, Sources(q), d)
    ensures Present(q, best, u)
  {
  }

  lemma FirstIsNew(q: Quest, best: map<string, Hit>, d: nat, n: string)
    requires Complete(q, best, d) && n !in best && n !in SeedSet(q.seeds) && |best| < q.limit
    ensures n !in Ball(q.net, Sources(q), d)
  {
    if n in Ball(q.net, Sources(q), d) { CompleteHas(q, best, d, n); }
  }

  lemma FirstHits(q: Quest, d: nat, u: string, w: real, n: string, rel: string, best: map<string, Hit>, h: Hit)
    requires Hits(q, best, d + 1) && Arrived(q, best, u, d, w) && n !in Ball(q.net, Sources(q), d)
    requires Step(q.net, u, n) && Labelled(q.net.edges, u, n, rel)
    requires n !in best && n !in SeedSet(q.seeds) && |best| < q.limit && h == Hit(n, d + 1, u, rel, w * q.decay)
    ensures Hits(q, best[n := h], d + 1) && Weighs(q, n, d + 1, h.score)
  {
    FirstArrival(q, best, u, n, rel, d, w);
    HitsWith(q, best, n, h, d + 1);
  }

  lemma EdgeIsStep(net: Net, e: Edge, u: string)
    requires e in net.edges && Touching(e, u) && net.visible(Other(e, u))
    ensures Step(net, u, Other(e, u)) && Labelled(net.edges, u, Other(e, u), e.rel)
  {
  }

  // What an expansion does to the record of hits.
  ghost predicate Advances(q: Quest, best: map<string, Hit>, best': map<string, Hit>) {
    Grows(best, best') && (|best| >= q.limit ==> best'.Keys == best.Keys)
  }

  // A hit's score is what a node of `expanded` brought along, decayed once: that node is its `via`.
  ghost predicate Traced(q: Quest, best: map<string, Hit>, expanded: seq<(string, real)>, n: string) {
    n in best && exists i ::
      0 <= i < |expanded| && expanded[i].0 == best[n].via && best[n].score == expanded[i].1 * q.decay
  }

  ghost predicate AllTraced(q: Quest, best: map<string, Hit>, expanded: seq<(string, real)>) {
    forall n {:trigger Traced(q, best, expanded, n)} :: n in best ==> Traced(q, best, expanded, n)
  }

  lemma TracedWith(q: Quest, best: map<string, Hit>, expanded: seq<(string, real)>, n: string, h: Hit, i: nat)
    requires AllTraced(q, best, expanded)
    requires i < |expanded| && expanded[i].0 == h.via && h.score == expanded[i].1 * q.decay
    ensures AllTraced(q, best[n := h], expanded)
  {
    var best' := best[n := h];
    forall m | m in best' ensures Traced(q, best', expanded, m) {
      if m != n { assert Traced(q, best, expanded, m); }
    }
  }

  lemma TracedMore(q: Quest, best: map<string, Hit>, expanded: seq<(string, real)>, more: seq<(string, real)>)
    requires AllTraced(q, best, expanded)
    ensures AllTraced(q, best, expanded + more)
  {
    forall n | n in best ensures Traced(q, best, expanded + more, n) {
      assert Traced(q, best, expanded, n);
      var i :| 0 <= i < |expanded| && expanded[i].0 == best[n].via && best[n].score == expanded[i].1 * q.decay;
      assert (expanded + more)[i] == expanded[i];
    }
  }

  // What holds after an arrival from `u`, weighing `w`, at `n` has been dealt with.
  ghost predicate Followed(q: Quest, d: nat, u: string, w: real, n: string, best: map<string, Hit>,
      best': map<string, Hit>, next: seq<(string, real)>, expanded: seq<(string, real)>)
  {
    && Hits(q, best', d + 1) && Waiting(q, best', next, d + 1)
    && Advances(q, best, best') && Settled(q, best', u, w, n) && AllTraced(q, best', expanded)
  }

  lemma Upgraded(q: Quest, d: nat, u: string, w: real, n: string, rel: string, best: map<string, Hit>, h: Hit,
      next: seq<(string, real)>, expanded: seq<(string, real)>, at: nat)
    requires Hits(q, best, d + 1) && Waiting(q, best, next, d + 1) && Arrived(q, best, u, d, w)
    requires AllTraced(q, best, expanded) && at < |expanded| && expanded[at] == (u, w)
    requires Step(q.net, u, n) && Labelled(q.net.edges, u, n, rel) && n in best && w * q.decay > best[n].score
    requires h == best[n].(score := w * q.decay, via := u, rel := rel)
    ensures Followed(q, d, u, w, n, best, best[n := h], next, expanded)
  {
    UpgradeHits(q, d, u, w, n, rel, best, h);
    UpgradeWaits(q, best, next, d + 1, n, h);
    TracedWith(q, best, expanded, n, h, at);
  }

  lemma FirstMet(q: Quest, d: nat, u: string, w: real, n: string, rel: string, best: map<string, Hit>, h: Hit,
      next: seq<(string, real)>, expanded: seq<(string, real)>, at: nat)
    requires Hits(q, best, d + 1) && Waiting(q, best, next, d + 1) && Arrived(q, best, u, d, w) && Complete(q, best, d)
    requires AllTraced(q, best, expanded) && at < |expanded| && expanded[at] == (u, w)
    requires Step(q.net, u, n) && Labelled(q.net.edges, u, n, rel)
    requires n !in best && n !in SeedSet(q.seeds) && |best| < q.limit && h == Hit(n, d + 1, u, rel, w * q.decay)
    ensures Followed(q, d, u, w, n, best, best[n := h], next + [(n, h.score)], expanded)
  {
    FirstIsNew(q, best, d, n);
    FirstHits(q, d, u, w, n, rel, best, h);
    WaitingWith(q, best, next, d + 1, h);
    TracedWith(q, best, expanded, n, h, at);
  }

  lemma NothingToFollow(q: Quest, d: nat, u: string, w: real, n: string, best: map<string, Hit>,
      next: seq<(string, real)>, expanded: seq<(string, real)>)
    requires Hits(q, best, d + 1) && Waiting(q, best, next, d + 1) && AllTraced(q, best, expanded)
    requires Settled(q, best, u, w, n)
    ensures Followed(q, d, u, w, n, best, best, next, expanded)
  {
  }

  function Bettered(q: Quest, h: Hit, node: (string, real), e: Edge): Hit {
    h.(score := node.1 * q.decay, via := node.0, rel := e.rel)
  }

  function FirstHit(q: Quest, hop: nat, node: (string, real), e: Edge): Hit {
    Hit(Other(e, node.0), hop, node.0, e.rel, node.1 * q.decay)
  }

  function Carried(q: Quest, node: (string, real), e: Edge): (string, real) {
    (Other(e, node.0), node.1 * q.decay)
  }

  datatype Progression = Progression(best: map<string, Hit>, next: seq<(string, real)>)

  // One edge followed: a first arrival is recorded and waits, a better one upgrades, the limit
  // turns away the rest.
  function Arrive(q: Quest, hop: nat, node: (string, real), e: Edge, best: map<string, Hit>,
      next: seq<(string, real)>): Progression {
    var other, score := Other(e, node.0), node.1 * q.decay;
    if other == node.0 || other in SeedSet(q.seeds) then Progression(best, next)
    else if other in best then
      Progression(if score > best[other].score then best[other := Bettered(q, best[other], node, e)] else best, next)
    else if |best| < q.limit then
      Progression(best[other := FirstHit(q, hop, node, e)], next + [Carried(q, node, e)])
    else Progression(best, next)
  }

  ghost predicate Spawn(q: Quest, node: (string, real), best: map<string, Hit>, n: (string, real)) {
    n.0 !in best && n.0 !in SeedSet(q.seeds) && n.0 != node.0 && Step(q.net, node.0, n.0) && n.1 == node.1 * q.decay
  }

  // What `node` has added to the next level: nodes joined to it that were not known, as long as
  // there was room.
  ghost predicate Spawned(q: Quest, node: (string, real), best: map<string, Hit>, next: seq<(string, real)>,
      next': seq<(string, real)>)
  {
    && next <= next' && (next != next' ==> |best| < q.limit && q.net.visible(node.0))
    && forall x {:trigger Spawn(q, node, best, next'[x])} :: |next| <= x < |next'| ==> Spawn(q, node, best, next'[x])
  }

  lemma SpawnedOne(q: Quest, node: (string, real), best: map<string, Hit>, next: seq<(string, real)>, n: (string, real))
    requires |best| < q.limit && q.net.visible(node.0) && Spawn(q, node, best, n)
    ensures Spawned(q, node, best, next, next + [n])
  {
  }

  lemma GrowsSize(best: map<string, Hit>, best': map<string, Hit>)
    requires Grows(best, best')
    ensures |best| <= |best'|
  {
    forall n | n in best ensures n in best' { GrowsKeeps(best, best', n); }
    assert best'.Keys == best.Keys + (best'.Keys - best.Keys);
  }

  lemma SpawnedMore(q: Quest, node: (string, real), best: map<string, Hit>, later: map<string, Hit>,
      a: seq<(string, real)>, b: seq<(string, real)>, c: seq<(string, real)>)
    requires Spawned(q, node, best, a, b) && Spawned(q, node, later, b, c) && Grows(best, later)
    ensures Spawned(q, node, best, a, c)
  {
    GrowsSize(best, later);
    forall x | |a| <= x < |c| ensures Spawn(q, node, best, c[x]) {
      if x < |b| {
        assert c[x] == b[x] && Spawn(q, node, best, b[x]);
      } else {
        assert Spawn(q, node, later, c[x]);
        if c[x].0 in best { GrowsKeeps(best, later, c[x].0); }
      }
    }
  }

  ghost predicate CanArrive(q: Quest, d: nat, node: (string, real), e: Edge, best: map<string, Hit>,
      next: seq<(string, real)>, expanded: seq<(string, real)>, at: nat)
  {
    && AllTraced(q, best, expanded) && at < |expanded| && expanded[at] == node
    && Hits(q, best, d + 1) && Waiting(q, best, next, d + 1) && Arrived(q, best, node.0, d, node.1)
      && Complete(q, best, d)
    && e in q.net.edges && Touching(e, node.0) && q.net.visible(node.0) && q.net.visible(Other(e, node.0))
  }

  // What an arrival leaves behind.
  ghost predicate Arrival(q: Quest, d: nat, node: (string, real), n: string, best: map<string, Hit>,
      next: seq<(string, real)>, expanded: seq<(string, real)>, after: Progression)
  {
    Followed(q, d, node.0, node.1, n, best, after.best, after.next, expanded)
      && Spawned(q, node, best, next, after.next)
  }

  lemma ArriveBetter(q: Quest, d: nat, node: (string, real), e: Edge, best: map<string, Hit>, next: seq<(string, real)>,
      expanded: seq<(string, real)>, at: nat)
    requires CanArrive(q, d, node, e, best, next, expanded, at) && Other(e, node.0) != node.0
    requires Other(e, node.0) !in SeedSet(q.seeds)
    requires Other(e, node.0) in best && node.1 * q.decay > best[Other(e, node.0)].score
    ensures Arrival(q, d, node, Other(e, node.0), best, next, expanded, Arrive(q, d + 1, node, e, best, next))
  {
    var other := Other(e, node.0);
    EdgeIsStep(q.net, e, node.0);
    Upgraded(q, d, node.0, node.1, other, e.rel, best, Bettered(q, best[other], node, e), next, expanded, at);
  }

  lemma ArriveFirst(q: Quest, d: nat, node: (string, real), e: Edge, best: map<string, Hit>, next: seq<(string, real)>,
      expanded: seq<(string, real)>, at: nat)
    requires CanArrive(q, d, node, e, best, next, expanded, at)
    requires Other(e, node.0) != node.0 && Other(e, node.0) !in best && Other(e, node.0) !in SeedSet(q.seeds)
    requires |best| < q.limit
    ensures Arrival(q, d, node, Other(e, node.0), best, next, expanded, Arrive(q, d + 1, node, e, best, next))
  {
    var n, h := Other(e, node.0), FirstHit(q, d + 1, node, e);
    EdgeIsStep(q.net, e, node.0);
    FirstMet(q, d, node.0, node.1, n, e.rel, best, h, next, expanded, at);
    SpawnedOne(q, node, best, next, (n, h.score));
  }

  lemma ArriveIdle(q: Quest, d: nat, node: (string, real), e: Edge, best: map<string, Hit>, next: seq<(string, real)>,
      expanded: seq<(string, real)>, at: nat)
    requires CanArrive(q, d, node, e, best, next, expanded, at) && Settled(q, best, node.0, node.1, Other(e, node.0))
    requires Arrive(q, d + 1, node, e, best, next) == Progression(best, next)
    ensures Arrival(q, d, node, Other(e, node.0), best, next, expanded, Arrive(q, d + 1, node, e, best, next))
  {
    NothingToFollow(q, d, node.0, node.1, Other(e, node.0), best, next, expanded);
  }

  method Follow(q: Quest, hop: nat, node: (string, real), e: Edge, best: map<string, Hit>, next: seq<(string, real)>)
    returns (best': map<string, Hit>, next': seq<(string, real)>)
    ensures Progression(best', next') == Arrive(q, hop, node, e, best, next)
  {
    best', next' := best, next;
    var other := Other(e, node.0);
    if other == node.0 || other in SeedSet(q.seeds) {
      return;
    }
    var score := node.1 * q.decay;
    if other in best {
      if score > best[other].score {
        best' := best[other := Bettered(q, best[other], node, e)];
      }
    } else if |best| < q.limit {
      best' := best[other := FirstHit(q, hop, node, e)];
      next' := next + [Carried(q, node, e)];
    }
  }

  lemma ArriveKeeps(q: Quest, d: nat, node: (string, real), e: Edge, best: map<string, Hit>, next: seq<(string, real)>,
      expanded: seq<(string, real)>, at: nat)
    requires CanArrive(q, d, node, e, best, next, expanded, at)
    ensures Arrival(q, d, node, Other(e, node.0), best, next, expanded, Arrive(q, d + 1, node, e, best, next))
  {
    var other := Other(e, node.0);
    if other == node.0 || other in SeedSet(q.seeds) {
      ArriveIdle(q, d, node, e, best, next, expanded, at);
    } else if other in best {
      if node.1 * q.decay > best[other].score {
        ArriveBetter(q, d, node, e, best, next, expanded, at);
      } else {
        ArriveIdle(q, d, node, e, best, next, expanded, at);
      }
    } else if |best| < q.limit {
      ArriveFirst(q, d, node, e, best, next, expanded, at);
    } else {
      ArriveIdle(q, d, node, e, best, next, expanded, at);
    }
  }

  lemma ArrivedStays(q: Quest, best: map<string, Hit>, best': map<string, Hit>, upTo: nat, u: string, d: nat, w: real)
    requires Arrived(q, best, u, d, w) && Grows(best, best') && Hits(q, best', upTo)
    ensures Arrived(q, best', u, d, w)
  {
    HitsAreNoSeeds(q, best', upTo);
    if u in best { GrowsKeeps(best, best', u); }
    assert HopOf(best', u) == HopOf(best, u);
  }

  lemma CompleteStays(q: Quest, best: map<string, Hit>, best': map<string, Hit>, d: nat)
    requires Complete(q, best, d) && Grows(best, best')
    ensures Complete(q, best', d)
  {
    GrowsSize(best, best');
    if |best'| < q.limit {
      forall n | n in Ball(q.net, Sources(q), d) ensures Present(q, best', n) {
        CompleteHas(q, best, d, n);
        if n in best { GrowsKeeps(best, best', n); }
      }
    }
  }

  // Every arrival from this node has been taken into account.
  ghost predicate NodeSettled(q: Quest, best: map<string, Hit>, node: (string, real)) {
    q.net.visible(node.0) ==> forall n :: Step(q.net, node.0, n) ==> Settled(q, best, node.0, node.1, n)
  }

  lemma NodeSettledStays(q: Quest, best: map<string, Hit>, best': map<string, Hit>, node: (string, real))
    requires NodeSettled(q, best, node) && Grows(best, best')
    requires |best| >= q.limit ==> best'.Keys == best.Keys
    ensures NodeSettled(q, best', node)
  {
    GrowsSize(best, best');
    if q.net.visible(node.0) {
      forall n | Step(q.net, node.0, n) ensures Settled(q, best', node.0, node.1, n) {
        SettledStays(q, best, best', node.0, node.1, n);
      }
    }
  }

  lemma AdvancesTwice(q: Quest, a: map<string, Hit>, b: map<string, Hit>, c: map<string, Hit>)
    requires Advances(q, a, b) && Advances(q, b, c)
    ensures Advances(q, a, c)
  {
    GrowsSize(a, b);
    forall n | n in a ensures GrowsAt(a, c, n) {
      GrowsKeeps(a, b, n);
      GrowsKeeps(b, c, n);
    }
  }

  lemma StepHasEdge(net: Net, u: string, n: string) returns (e: Edge)
    requires Step(net, u, n)
    ensures e in net.edges && Touching(e, u) && Other(e, u) == n
  {
    e :| e in net.edges && ((e.fromUri == u && e.toUri == n) || (e.fromUri == n && e.toUri == u));
  }

  ghost predicate SettledUpTo(q: Quest, best: map<string, Hit>, u: string, w: real, es: seq<Edge>, i: nat) {
    forall j :: 0 <= j < i && j < |es| ==> Settled(q, best, u, w, Other(es[j], u))
  }

  lemma AllFollowed(q: Quest, best: map<string, Hit>, u: string, w: real, es: seq<Edge>)
    requires forall e :: e in es <==>
      e in q.net.edges && Touching(e, u) && q.net.visible(u) && q.net.visible(Other(e, u))
    requires SettledUpTo(q, best, u, w, es, |es|)
    ensures NodeSettled(q, best, (u, w))
  {
    if q.net.visible(u) {
      forall n | Step(q.net, u, n) ensures Settled(q, best, u, w, n) {
        var e := StepHasEdge(q.net, u, n);
        assert e in es;
      }
    }
  }

  lemma AfterFollow(q: Quest, d: nat, first: map<string, Hit>, was: map<string, Hit>, best: map<string, Hit>, u: string,
      w: real, es: seq<Edge>, i: nat)
    requires Advances(q, first, was) && Advances(q, was, best) && Complete(q, was, d) && Arrived(q, was, u, d, w)
    requires Hits(q, best, d + 1) && i < |es| && SettledUpTo(q, was, u, w, es, i)
    requires Settled(q, best, u, w, Other(es[i], u))
    ensures Advances(q, first, best) && Complete(q, best, d) && Arrived(q, best, u, d, w)
    ensures SettledUpTo(q, best, u, w, es, i + 1)
  {
    AdvancesTwice(q, first, was, best);
    GrowsSize(was, best);
    CompleteStays(q, was, best, d);
    ArrivedStays(q, was, best, d + 1, u, d, w);
    forall j | 0 <= j < i ensures Settled(q, best, u, w, Other(es[j], u)) {
      SettledStays(q, was, best, u, w, Other(es[j], u));
    }
  }

  // The first `i` edges of a node have been followed.
  ghost predicate Following(q: Quest, d: nat, node: (string, real), es: seq<Edge>, i: nat, first: map<string, Hit>,
      waiting: seq<(string, real)>, best: map<string, Hit>, next: seq<(string, real)>, expanded: seq<(string, real)>)
  {
    && Hits(q, best, d + 1) && Waiting(q, best, next, d + 1) && Complete(q, best, d)
    && Advances(q, first, best) && SettledUpTo(q, best, node.0, node.1, es, i)
    && AllTraced(q, best, expanded) && Spawned(q, node, first, waiting, next)
    && (es != [] ==> Arrived(q, best, node.0, d, node.1))
  }

  ghost predicate Served(q: Quest, u: string, es: seq<Edge>) {
    forall e :: e in es <==> e in q.net.edges && Touching(e, u) && q.net.visible(u) && q.net.visible(Other(e, u))
  }

  lemma FollowNext(q: Quest, d: nat, node: (string, real), es: seq<Edge>, i: nat, first: map<string, Hit>,
      waiting: seq<(string, real)>,
      best: map<string, Hit>, next: seq<(string, real)>, expanded: seq<(string, real)>, at: nat)
    requires Following(q, d, node, es, i, first, waiting, best, next, expanded) && i < |es| && Served(q, node.0, es)
    requires at < |expanded| && expanded[at] == node
    ensures var after := Arrive(q, d + 1, node, es[i], best, next);
      Following(q, d, node, es, i + 1, first, waiting, after.best, after.next, expanded)
  {
    var after := Arrive(q, d + 1, node, es[i], best, next);
    assert es[i] in es;
    ArriveKeeps(q, d, node, es[i], best, next, expanded, at);
    AfterFollow(q, d, first, best, after.best, node.0, node.1, es, i);
    SpawnedMore(q, node, first, best, waiting, next, after.next);
  }

  lemma FollowingStarts(q: Quest, d: nat, node: (string, real), es: seq<Edge>, best: map<string, Hit>,
      next: seq<(string, real)>, expanded: seq<(string, real)>)
    requires AllTraced(q, best, expanded) && Hits(q, best, d + 1) && Waiting(q, best, next, d + 1)
    requires Complete(q, best, d)
    requires Served(q, node.0, es) && (q.net.visible(node.0) ==> Arrived(q, best, node.0, d, node.1))
    ensures Following(q, d, node, es, 0, best, next, best, next, expanded)
  {
    assert es != [] ==> es[0] in es;
  }

  // What expanding one node does.
  ghost predicate NodeExpanded(q: Quest, d: nat, node: (string, real), best: map<string, Hit>,
      next: seq<(string, real)>, best': map<string, Hit>, next': seq<(string, real)>, expanded: seq<(string, real)>)
  {
    && Hits(q, best', d + 1) && Waiting(q, best', next', d + 1) && Complete(q, best', d)
    && Advances(q, best, best') && NodeSettled(q, best', node) && AllTraced(q, best', expanded)
    && Spawned(q, node, best, next, next')
  }

  method ExpandNode(q: Quest, ghost d: nat, hop: nat, node: (string, real), best: map<string, Hit>,
      next: seq<(string, real)>, ghost expanded: seq<(string, real)>, ghost at: nat)
    returns (best': map<string, Hit>, next': seq<(string, real)>)
    requires AllTraced(q, best, expanded) && at < |expanded| && expanded[at] == node
    requires hop == d + 1 && Hits(q, best, d + 1) && Waiting(q, best, next, d + 1) && Complete(q, best, d)
    requires q.net.visible(node.0) ==> Arrived(q, best, node.0, d, node.1)
    ensures NodeExpanded(q, d, node, best, next, best', next', expanded)
  {
    best', next' := best, next;
    var es := EdgesOf(q.net, node.0);
    FollowingStarts(q, d, node, es, best, next, expanded);
    for i := 0 to |es|
      invariant Following(q, d, node, es, i, best, next, best', next', expanded)
    {
      FollowNext(q, d, node, es, i, best, next, best', next', expanded, at);
      best', next' := Follow(q, hop, node, es[i], best', next');
    }
    AllFollowed(q, best', node.0, node.1, es);
  }

  ghost predicate AllSettled(q: Quest, best: map<string, Hit>, nodes: seq<(string, real)>) {
    forall i {:trigger NodeSettled(q, best, nodes[i])} :: 0 <= i < |nodes| ==> NodeSettled(q, best, nodes[i])
  }

  // The frontier of level `d`: everyone in it has arrived there, and nobody first reached there
  // is missing unless the limit has been reached.
  ghost predicate FrontAt(q: Quest, best: map<string, Hit>, node: (string, real), d: nat) {
    q.net.visible(node.0) ==> Arrived(q, best, node.0, d, node.1)
  }

  predicate OnFront(q: Quest, frontier: seq<(string, real)>, u: string, d: nat) {
    InFront(frontier, u) || (d > 0 && u in Ball(q.net, Sources(q), d - 1))
  }

  ghost predicate Front(q: Quest, best: map<string, Hit>, frontier: seq<(string, real)>, d: nat) {
    && (forall i {:trigger FrontAt(q, best, frontier[i], d)} :: 0 <= i < |frontier| ==>
      FrontAt(q, best, frontier[i], d))
    && (|best| < q.limit ==> forall u {:trigger OnFront(q, frontier, u, d)} :: u in Ball(q.net, Sources(q), d) ==>
      OnFront(q, frontier, u, d))
  }

  lemma {:induction false} BallVisible(q: Quest, d: nat)
    ensures forall n :: n in Ball(q.net, Sources(q), d) ==> q.net.visible(n)
  {
    if d > 0 { BallVisible(q, d - 1); }
  }

  lemma NobodyWaiting(q: Quest, best: map<string, Hit>, d: nat)
    requires Hits(q, best, d)
    ensures Hits(q, best, d + 1) && Waiting(q, best, [], d + 1)
  {
    forall n | n in best
      ensures Good(q, best, n, d + 1) && best[n].hop <= d && Awaited(best, [], n, d + 1)
    {
      HitAt(q, best, d, n);
    }
  }

  lemma FrontHas(q: Quest, best: map<string, Hit>, frontier: seq<(string, real)>, d: nat, u: string)
    requires Front(q, best, frontier, d) && |best| < q.limit && u in Ball(q.net, Sources(q), d)
    ensures InFront(frontier, u) || (d > 0 && u in Ball(q.net, Sources(q), d - 1))
  {
    assert OnFront(q, frontier, u, d);
  }

  lemma ReachedBefore(q: Quest, best: map<string, Hit>, d: nat, u: string, n: string)
    requires Complete(q, best, d) && |best| < q.limit && d > 0 && u in Ball(q.net, Sources(q), d - 1)
    requires Step(q.net, u, n)
    ensures Present(q, best, n)
  {
    StepLevel(q.net, Sources(q), u, n, d - 1);
    CompleteHas(q, best, d, n);
  }

  lemma ReachedNow(q: Quest, best: map<string, Hit>, frontier: seq<(string, real)>, d: nat, u: string, n: string)
    requires Complete(q, best, d) && |best| < q.limit && u in Ball(q.net, Sources(q), d) && q.net.visible(u)
    requires InFront(frontier, u) && AllSettled(q, best, frontier) && Step(q.net, u, n)
    ensures Present(q, best, n)
  {
    var i :| 0 <= i < |frontier| && frontier[i].0 == u;
    assert NodeSettled(q, best, frontier[i]);
    assert Settled(q, best, u, frontier[i].1, n);
    if n == u { CompleteHas(q, best, d, n); }
  }

  lemma ReachedFrom(q: Quest, was: map<string, Hit>, best: map<string, Hit>, frontier: seq<(string, real)>, d: nat,
      u: string, n: string)
    requires Front(q, was, frontier, d) && |was| < q.limit && |best| < q.limit && Complete(q, best, d)
    requires AllSettled(q, best, frontier) && u in Ball(q.net, Sources(q), d) && Step(q.net, u, n)
    ensures Present(q, best, n)
  {
    BallVisible(q, d);
    FrontHas(q, was, frontier, d, u);
    if InFront(frontier, u) {
      ReachedNow(q, best, frontier, d, u, n);
    } else {
      ReachedBefore(q, best, d, u, n);
    }
  }

  // When the whole frontier is settled, the next level is complete.
  lemma LevelDone(q: Quest, was: map<string, Hit>, best: map<string, Hit>, frontier: seq<(string, real)>, d: nat)
    requires Front(q, was, frontier, d) && Advances(q, was, best) && Complete(q, best, d)
    requires AllSettled(q, best, frontier)
    ensures Complete(q, best, d + 1)
  {
    GrowsSize(was, best);
    if |best| < q.limit {
      forall n | n in Ball(q.net, Sources(q), d + 1) ensures Present(q, best, n) {
        if n in Ball(q.net, Sources(q), d) {
          CompleteHas(q, best, d, n);
        } else {
          var u :| u in Ball(q.net, Sources(q), d) && Step(q.net, u, n);
          ReachedFrom(q, was, best, frontier, d, u, n);
        }
      }
    }
  }

  lemma FirstFront(q: Quest)
    ensures Front(q, map[], q.seeds, 0) && Hits(q, map[], 0) && Complete(q, map[], 0)
  {
    forall i | 0 <= i < |q.seeds| ensures FrontAt(q, map[], q.seeds[i], 0) {
      assert q.seeds[i].0 in SeedSet(q.seeds);
    }
    forall u | u in Ball(q.net, Sources(q), 0) ensures OnFront(q, q.seeds, u, 0) {
      var i :| 0 <= i < |q.seeds| && q.seeds[i].0 == u;
    }
  }

  lemma NextArrived(q: Quest, best: map<string, Hit>, next: seq<(string, real)>, d: nat, i: nat)
    requires Hits(q, best, d) && Waiting(q, best, next, d) && i < |next|
    ensures Arrived(q, best, next[i].0, d, next[i].1)
  {
    assert WaitingAt(q, best, next[i], d);
    HitAt(q, best, d, next[i].0);
  }

  lemma SeedWithin(q: Quest, d: nat, e: nat, u: string)
    requires u in SeedSet(q.seeds) && u in Ball(q.net, Sources(q), d)
    ensures u in Ball(q.net, Sources(q), e)
  {
    BallVisible(q, d);
    BallGrows(q.net, Sources(q), 0, e);
    assert u in Sources(q);
  }

  lemma HitWithin(q: Quest, best: map<string, Hit>, upTo: nat, d: nat, u: string)
    requires Hits(q, best, upTo) && u in best && best[u].hop <= d
    ensures u in Ball(q.net, Sources(q), d)
  {
    HitAt(q, best, upTo, u);
    BallGrows(q.net, Sources(q), best[u].hop, d);
  }

  lemma WaitingHas(q: Quest, best: map<string, Hit>, next: seq<(string, real)>, hop: nat, n: string)
    requires Waiting(q, best, next, hop) && Hits(q, best, hop) && n in best && best[n].hop >= hop
    ensures InFront(next, n)
  {
    assert Awaited(best, next, n, hop);
    HitAt(q, best, hop, n);
  }

  lemma HitWaitsOrWithin(q: Quest, best: map<string, Hit>, next: seq<(string, real)>, d: nat, u: string)
    requires d > 0 && Hits(q, best, d) && Waiting(q, best, next, d) && u in best
    ensures InFront(next, u) || u in Ball(q.net, Sources(q), d - 1)
  {
    if best[u].hop < d { HitWithin(q, best, d, d - 1, u); } else { WaitingHas(q, best, next, d, u); }
  }

  lemma NextHas(q: Quest, best: map<string, Hit>, next: seq<(string, real)>, d: nat, u: string)
    requires d > 0 && Hits(q, best, d) && Waiting(q, best, next, d) && Complete(q, best, d) && |best| < q.limit
    requires u in Ball(q.net, Sources(q), d)
    ensures InFront(next, u) || u in Ball(q.net, Sources(q), d - 1)
  {
    CompleteHas(q, best, d, u);
    if u in best { HitWaitsOrWithin(q, best, next, d, u); } else { SeedWithin(q, d, d - 1, u); }
  }

  lemma NextFront(q: Quest, best: map<string, Hit>, next: seq<(string, real)>, d: nat)
    requires d > 0 && Hits(q, best, d) && Waiting(q, best, next, d) && Complete(q, best, d)
    ensures Front(q, best, next, d)
  {
    forall i | 0 <= i < |next| ensures FrontAt(q, best, next[i], d) { NextArrived(q, best, next, d, i); }
    if |best| < q.limit {
      forall u | u in Ball(q.net, Sources(q), d) ensures OnFront(q, next, u, d) {
        NextHas(q, best, next, d, u);
      }
    }
  }

  lemma EmptyLevel(q: Quest, best: map<string, Hit>, d: nat)
    requires d > 0 && Front(q, best, [], d) && |best| < q.limit
    ensures Ball(q.net, Sources(q), d) == Ball(q.net, Sources(q), d - 1)
  {
    BallGrows(q.net, Sources(q), d - 1, d);
    forall u | u in Ball(q.net, Sources(q), d) ensures u in Ball(q.net, Sources(q), d - 1) {
      FrontHas(q, best, [], d, u);
    }
  }

  lemma CompleteSame(q: Quest, best: map<string, Hit>, a: nat, b: nat)
    requires Complete(q, best, a) && Ball(q.net, Sources(q), a) == Ball(q.net, Sources(q), b)
    ensures Complete(q, best, b)
  {
    if |best| < q.limit {
      forall n | n in Ball(q.net, Sources(q), b) ensures Present(q, best, n) { CompleteHas(q, best, a, n); }
    }
  }

  // An empty frontier ends the search for good.
  lemma NothingFurther(q: Quest, best: map<string, Hit>, d: nat, bound: nat)
    requires 0 < d <= bound && Front(q, best, [], d) && Complete(q, best, d)
    ensures Complete(q, best, bound)
  {
    if |best| < q.limit {
      EmptyLevel(q, best, d);
      BallSettled(q.net, Sources(q), d, bound);
      CompleteSame(q, best, d, bound);
    }
  }

  lemma AllSettledStays(q: Quest, best: map<string, Hit>, best': map<string, Hit>, nodes: seq<(string, real)>)
    requires AllSettled(q, best, nodes) && Advances(q, best, best')
    ensures AllSettled(q, best', nodes)
  {
    forall i | 0 <= i < |nodes| ensures NodeSettled(q, best', nodes[i]) { NodeSettledStays(q, best, best', nodes[i]); }
  }

  lemma AllSettledSnoc(q: Quest, best: map<string, Hit>, nodes: seq<(string, real)>, node: (string, real))
    requires AllSettled(q, best, nodes) && NodeSettled(q, best, node)
    ensures AllSettled(q, best, nodes + [node])
  {
  }

  lemma FrontStays(q: Quest, best: map<string, Hit>, best': map<string, Hit>, frontier: seq<(string, real)>, d: nat,
      i: nat)
    requires Front(q, best, frontier, d) && Advances(q, best, best') && Hits(q, best', d + 1) && i < |frontier|
    ensures q.net.visible(frontier[i].0) ==> Arrived(q, best', frontier[i].0, d, frontier[i].1)
  {
    assert FrontAt(q, best, frontier[i], d);
    if q.net.visible(frontier[i].0) {
      ArrivedStays(q, best, best', d + 1, frontier[i].0, d, frontier[i].1);
    }
  }

  // ---- The order of first arrivals ----

  // A node that brings something to `n`.
  ghost predicate Reaches(q: Quest, node: (string, real), n: string) {
    q.net.visible(node.0) && node.0 != n && Step(q.net, node.0, n)
  }

  // `node` carries what the first node of `queue` that reaches it brought: the one at `at`.
  ghost predicate First(q: Quest, queue: seq<(string, real)>, at: nat, node: (string, real)) {
    && at < |queue| && Reaches(q, queue[at], node.0) && node.1 == queue[at].1 * q.decay
    && forall i {:trigger Reaches(q, queue[i], node.0)} :: 0 <= i < at ==> !Reaches(q, queue[i], node.0)
  }

  // `nodes` wait in the order of the nodes they were first reached from, all among `lo` to `hi`.
  ghost predicate Origins(q: Quest, queue: seq<(string, real)>, lo: nat, hi: nat, nodes: seq<(string, real)>,
      origins: seq<nat>)
  {
    && |origins| == |nodes| && Rising(origins)
    && (forall x :: 0 <= x < |origins| ==> lo <= origins[x] < hi)
    && (forall x {:trigger First(q, queue, origins[x], nodes[x])} :: 0 <= x < |nodes| ==>
      First(q, queue, origins[x], nodes[x]))
  }

  // The seeds, then every node in the order of first arrival; the node at |seeds| + x was first
  // reached from the one at parents[x].
  ghost predicate InOrder(q: Quest, queue: seq<(string, real)>, parents: seq<nat>, hi: nat) {
    && q.seeds <= queue && Origins(q, queue, 0, hi, queue[|q.seeds|..], parents)
    && (forall x :: 0 <= x < |parents| ==> parents[x] < |q.seeds| + x)
  }

  // Half way through a level: the nodes of `queue` before `at` have been expanded.
  ghost predicate Leveling(q: Quest, d: nat, queue: seq<(string, real)>, lo: nat, at: nat, first: map<string, Hit>,
      best: map<string, Hit>, next: seq<(string, real)>, origins: seq<nat>)
  {
    && lo <= at <= |queue| && Hits(q, best, d + 1) && Waiting(q, best, next, d + 1) && Complete(q, best, d)
      && Advances(q, first, best)
    && AllSettled(q, best, queue[..at]) && AllTraced(q, best, queue) && Origins(q, queue, lo, at, next, origins)
  }

  lemma StepSettled(q: Quest, best: map<string, Hit>, node: (string, real), n: string)
    requires NodeSettled(q, best, node) && q.net.visible(node.0) && Step(q.net, node.0, n)
    ensures Settled(q, best, node.0, node.1, n)
  {
  }

  lemma NotReachedBefore(q: Quest, best: map<string, Hit>, queue: seq<(string, real)>, at: nat, i: nat, n: string)
    requires at <= |queue| && i < at && AllSettled(q, best, queue[..at])
    requires n !in best && n !in SeedSet(q.seeds) && |best| < q.limit
    ensures !Reaches(q, queue[i], n)
  {
    assert queue[..at][i] == queue[i];
    assert NodeSettled(q, best, queue[..at][i]);
    if Reaches(q, queue[i], n) { StepSettled(q, best, queue[i], n); }
  }

  lemma SpawnIsFirst(q: Quest, best: map<string, Hit>, queue: seq<(string, real)>, at: nat, n: (string, real))
    requires at < |queue| && AllSettled(q, best, queue[..at])
    requires Spawn(q, queue[at], best, n) && |best| < q.limit && q.net.visible(queue[at].0)
    ensures First(q, queue, at, n)
  {
    forall i | 0 <= i < at ensures !Reaches(q, queue[i], n.0) { NotReachedBefore(q, best, queue, at, i, n.0); }
  }

  // The nodes that the one at `at` has added: all first reached from there.
  function Again(at: nat, k: nat): seq<nat> {
    seq(k, _ => at)
  }

  lemma RisingWith(s: seq<nat>, at: nat, k: nat)
    requires Rising(s) && forall x :: 0 <= x < |s| ==> s[x] <= at
    ensures Rising(s + Again(at, k))
  {
  }

  lemma OriginsGrow(q: Quest, best: map<string, Hit>, queue: seq<(string, real)>, lo: nat, at: nat,
      next: seq<(string, real)>, next': seq<(string, real)>, origins: seq<nat>)
    requires lo <= at < |queue| && Origins(q, queue, lo, at, next, origins) && AllSettled(q, best, queue[..at])
    requires Spawned(q, queue[at], best, next, next')
    ensures Origins(q, queue, lo, at + 1, next', origins + Again(at, |next'| - |next|))
  {
    var origins' := origins + Again(at, |next'| - |next|);
    RisingWith(origins, at, |next'| - |next|);
    forall x | 0 <= x < |next'| ensures First(q, queue, origins'[x], next'[x]) {
      if x < |next| {
        assert next'[x] == next[x] && First(q, queue, origins[x], next[x]);
      } else {
        assert Spawn(q, queue[at], best, next'[x]);
        SpawnIsFirst(q, best, queue, at, next'[x]);
      }
    }
  }

  lemma SettledSoFar(q: Quest, was: map<string, Hit>, best: map<string, Hit>, queue: seq<(string, real)>, at: nat)
    requires at < |queue| && AllSettled(q, was, queue[..at]) && Advances(q, was, best)
    requires NodeSettled(q, best, queue[at])
    ensures AllSettled(q, best, queue[..at + 1])
  {
    AllSettledStays(q, was, best, queue[..at]);
    AllSettledSnoc(q, best, queue[..at], queue[at]);
    PrefixSnoc(queue, at);
  }

  lemma LevelNext(q: Quest, d: nat, queue: seq<(string, real)>, lo: nat, at: nat, node: (string, real),
      first: map<string, Hit>,
      was: map<string, Hit>, next: seq<(string, real)>, origins: seq<nat>, best: map<string, Hit>,
      next': seq<(string, real)>, after: nat)
    requires Leveling(q, d, queue, lo, at, first, was, next, origins) && at < |queue| && queue[at] == node
    requires after == at + 1
    requires NodeExpanded(q, d, node, was, next, best, next', queue)
    ensures Leveling(q, d, queue, lo, after, first, best, next', origins + Again(at, |next'| - |next|))
  {
    AdvancesTwice(q, first, was, best);
    SettledSoFar(q, was, best, queue, at);
    OriginsGrow(q, was, queue, lo, at, next, next', origins);
  }

  lemma LevelStarts(q: Quest, d: nat, earlier: seq<(string, real)>, frontier: seq<(string, real)>,
      best: map<string, Hit>)
    requires AllTraced(q, best, earlier) && AllSettled(q, best, earlier) && Hits(q, best, d) && Complete(q, best, d)
    ensures Leveling(q, d, earlier + frontier, |earlier|, |earlier|, best, best, [], [])
  {
    NobodyWaiting(q, best, d);
    TracedMore(q, best, earlier, frontier);
    assert (earlier + frontier)[..|earlier|] == earlier;
  }

  // What expanding a level does.
  ghost predicate LevelExpansion(q: Quest, d: nat, queue: seq<(string, real)>, lo: nat, first: map<string, Hit>,
      best: map<string, Hit>, next: seq<(string, real)>, origins: seq<nat>)
  {
    Leveling(q, d, queue, lo, |queue|, first, best, next, origins) && Complete(q, best, d + 1)
      && AllSettled(q, best, queue)
  }

  lemma SettledTail(q: Quest, best: map<string, Hit>, a: seq<(string, real)>, b: seq<(string, real)>)
    requires AllSettled(q, best, a + b)
    ensures AllSettled(q, best, b)
  {
    forall i | 0 <= i < |b| ensures NodeSettled(q, best, b[i]) {
      assert (a + b)[|a| + i] == b[i] && NodeSettled(q, best, (a + b)[|a| + i]);
    }
  }

  lemma LevelEnds(q: Quest, d: nat, earlier: seq<(string, real)>, frontier: seq<(string, real)>,
      first: map<string, Hit>, best: map<string, Hit>, next: seq<(string, real)>, origins: seq<nat>)
    requires Leveling(q, d, earlier + frontier, |earlier|, |earlier + frontier|, first, best, next, origins)
    requires Front(q, first, frontier, d)
    ensures LevelExpansion(q, d, earlier + frontier, |earlier|, first, best, next, origins)
  {
    var queue := earlier + frontier;
    assert queue[..|queue|] == queue;
    SettledTail(q, best, earlier, frontier);
    LevelDone(q, first, best, frontier, d);
  }

  lemma LevelNode(q: Quest, d: nat, earlier: seq<(string, real)>, frontier: seq<(string, real)>, j: nat,
      first: map<string, Hit>, best: map<string, Hit>, next: seq<(string, real)>, origins: seq<nat>)
    requires Leveling(q, d, earlier + frontier, |earlier|, |earlier| + j, first, best, next, origins)
    requires Front(q, first, frontier, d) && j < |frontier|
    ensures (earlier + frontier)[|earlier| + j] == frontier[j] && FrontAt(q, best, frontier[j], d)
  {
    FrontStays(q, first, best, frontier, d, j);
  }

  method ExpandLevel(q: Quest, ghost d: nat, hop: nat, frontier: seq<(string, real)>, best: map<string, Hit>,
      ghost earlier: seq<(string, real)>)
    returns (best': map<string, Hit>, next: seq<(string, real)>, ghost origins: seq<nat>)
    requires AllTraced(q, best, earlier) && AllSettled(q, best, earlier)
    requires hop == d + 1 && Hits(q, best, d) && Front(q, best, frontier, d) && Complete(q, best, d)
    ensures LevelExpansion(q, d, earlier + frontier, |earlier|, best, best', next, origins)
  {
    best', next, origins := best, [], [];
    ghost var queue, lo := earlier + frontier, |earlier|;
    LevelStarts(q, d, earlier, frontier, best);
    for j := 0 to |frontier|
      invariant Leveling(q, d, queue, lo, lo + j, best, best', next, origins)
    {
      ghost var was, waiting := best', next;
      LevelNode(q, d, earlier, frontier, j, best, best', next, origins);
      best', next := ExpandNode(q, d, hop, frontier[j], best', next, queue, lo + j);
      LevelNext(q, d, queue, lo, lo + j, frontier[j], best, was, waiting, origins, best', next, lo + (j + 1));
      origins := origins + Again(lo + j, |next| - |waiting|);
    }
    LevelEnds(q, d, earlier, frontier, best, best', next, origins);
  }

  // ---- Best first ----

  // Byte order of UTF-8 text, which is code point order.
  predicate LexLess(a: string, b: string) {
    b != "" && (a == "" || a[0] < b[0] || (a[0] == b[0] && LexLess(a[1..], b[1..])))
  }

  lemma {:induction false} LexTotal(a: string, b: string)
    ensures a == b || LexLess(a, b) || LexLess(b, a)
  {
    if a != "" && b != "" && a[0] == b[0] {
      LexTotal(a[1..], b[1..]);
      assert a == [a[0]] + a[1..] && b == [b[0]] + b[1..];
    }
  }

  lemma {:induction false} LexTransitive(a: string, b: string, c: string)
    requires LexLess(a, b) && LexLess(b, c)
    ensures LexLess(a, c)
  {
    if a != "" && a[0] == b[0] && b[0] == c[0] { LexTransitive(a[1..], b[1..], c[1..]); }
  }

  // Higher score, then shallower hop, then uri.
  predicate Precedes(a: Hit, b: Hit) {
    a.score > b.score || (a.score == b.score && (a.hop < b.hop || (a.hop == b.hop && LexLess(a.uri, b.uri))))
  }

  lemma PrecedesTotal(a: Hit, b: Hit)
    ensures a.uri == b.uri || Precedes(a, b) || Precedes(b, a)
  {
    LexTotal(a.uri, b.uri);
  }

  lemma PrecedesTransitive(a: Hit, b: Hit, c: Hit)
    requires Precedes(a, b) && Precedes(b, c)
    ensures Precedes(a, c)
  {
    if LexLess(a.uri, b.uri) && LexLess(b.uri, c.uri) { LexTransitive(a.uri, b.uri, c.uri); }
  }

  ghost predicate BestFirst(s: seq<Hit>) {
    forall i, j :: 0 <= i < j < |s| ==> Precedes(s[i], s[j])
  }

  function PlaceHit(h: Hit, s: seq<Hit>): seq<Hit> {
    if s == [] || Precedes(h, s[0]) then [h] + s else [s[0]] + PlaceHit(h, s[1..])
  }

  lemma {:induction false} PlaceHitMembers(h: Hit, s: seq<Hit>)
    ensures forall x :: x in PlaceHit(h, s) <==> x == h || x in s
    ensures |PlaceHit(h, s)| == |s| + 1
  {
    if s != [] && !Precedes(h, s[0]) {
      PlaceHitMembers(h, s[1..]);
      assert s == [s[0]] + s[1..];
    }
  }

  lemma PutFirst(h: Hit, s: seq<Hit>)
    requires BestFirst(s) && forall x :: x in s ==> Precedes(h, x)
    ensures BestFirst([h] + s)
  {
  }

  lemma {:induction false} PlaceHitSorted(h: Hit, s: seq<Hit>)
    requires BestFirst(s) && forall x :: x in s ==> x.uri != h.uri
    ensures BestFirst(PlaceHit(h, s))
  {
    if s == [] || Precedes(h, s[0]) {
      forall x | x in s ensures Precedes(h, x) {
        var i :| 0 <= i < |s| && s[i] == x;
        if i > 0 { PrecedesTransitive(h, s[0], s[i]); }
      }
      PutFirst(h, s);
    } else {
      PlaceHitSorted(h, s[1..]);
      PlaceHitMembers(h, s[1..]);
      PrecedesTotal(h, s[0]);
      forall x | x in PlaceHit(h, s[1..]) ensures Precedes(s[0], x) {
        if x != h { var i :| 0 <= i < |s[1..]| && s[1..][i] == x; assert s[i + 1] == x; }
      }
      PutFirst(s[0], PlaceHit(h, s[1..]));
    }
  }

  // The hits in the order of `Precedes`, whatever order the map yields them in.
  method SortHits(best: map<string, Hit>) returns (out: seq<Hit>)
    requires forall n :: n in best ==> best[n].uri == n
    ensures BestFirst(out) && |out| == |best|
    ensures forall h :: h in out <==> h.uri in best && best[h.uri] == h
  {
    out := [];
    var todo := best.Keys;
    while todo != {}
      invariant todo <= best.Keys && BestFirst(out) && |out| + |todo| == |best|
      invariant forall h :: h in out <==> h.uri in best && h.uri !in todo && best[h.uri] == h
    {
      var n :| n in todo;
      PlaceHitSorted(best[n], out);
      PlaceHitMembers(best[n], out);
      out := PlaceHit(best[n], out);
      todo := todo - {n};
    }
  }

  // ---- The whole walk ----

  // `depth` is cut to 32 bits before it bounds the loop.
  function Bound(depth: nat): nat {
    depth % 0x1_0000_0000
  }

  // Each node carries what some visible seed weighs there, over a walk as long as its hop.
  ghost predicate WeighedAt(q: Quest, best: map<string, Hit>, node: (string, real)) {
    Present(q, best, node.0) && (q.net.visible(node.0) ==> Weighs(q, node.0, HopOf(best, node.0), node.1))
  }

  ghost predicate Weighed(q: Quest, best: map<string, Hit>, nodes: seq<(string, real)>) {
    forall i {:trigger WeighedAt(q, best, nodes[i])} :: 0 <= i < |nodes| ==> WeighedAt(q, best, nodes[i])
  }

  lemma WaitingWeighed(q: Quest, best: map<string, Hit>, next: seq<(string, real)>, hop: nat)
    requires Waiting(q, best, next, hop)
    ensures Weighed(q, best, next)
  {
    forall i | 0 <= i < |next| ensures WeighedAt(q, best, next[i]) {
      assert WaitingAt(q, best, next[i], hop);
    }
  }

  lemma HitIsNoSeed(q: Quest, best: map<string, Hit>, upTo: nat, n: string)
    requires Hits(q, best, upTo) && n in best
    ensures n !in SeedSet(q.seeds)
  {
    HitAt(q, best, upTo, n);
  }

  lemma HopStays(q: Quest, best: map<string, Hit>, best': map<string, Hit>, upTo: nat, n: string)
    requires Grows(best, best') && Hits(q, best', upTo) && Present(q, best, n)
    ensures HopOf(best', n) == HopOf(best, n)
  {
    if n in best { GrowsKeeps(best, best', n); }
    if n in best' { HitIsNoSeed(q, best', upTo, n); }
  }

  // Every node is expanded once, with the weight of its first arrival: the nodes of the levels
  // before `hop` have been, those of level `hop` wait.
  ghost predicate Expanded(q: Quest, best: map<string, Hit>, expanded: seq<(string, real)>,
      frontier: seq<(string, real)>, hop: nat)
  {
    && AllTraced(q, best, expanded) && AllSettled(q, best, expanded) && Weighed(q, best, expanded)
      && Weighed(q, best, frontier)
    && (forall n :: n in best && best[n].hop < hop ==> InFront(expanded, n))
    && (forall n :: n in best && best[n].hop == hop ==> InFront(frontier, n))
  }

  lemma NewIsDeeper(q: Quest, best: map<string, Hit>, best': map<string, Hit>, d: nat, n: string)
    requires Complete(q, best, d) && Advances(q, best, best') && Hits(q, best', d + 1) && n in best' && n !in best
    ensures best'[n].hop > d
  {
    if best'[n].hop <= d {
      assert |best| < q.limit;
      HitWithin(q, best', d + 1, d, n);
      CompleteHas(q, best, d, n);
      HitIsNoSeed(q, best', d + 1, n);
    }
  }

  lemma InFrontOf(a: seq<(string, real)>, b: seq<(string, real)>, n: string)
    requires InFront(a, n) || InFront(b, n)
    ensures InFront(a + b, n)
  {
    if InFront(a, n) {
      var i :| 0 <= i < |a| && a[i].0 == n;
      assert (a + b)[i].0 == n;
    } else {
      var i :| 0 <= i < |b| && b[i].0 == n;
      assert (a + b)[|a| + i].0 == n;
    }
  }

  lemma WeighedStays(q: Quest, best: map<string, Hit>, best': map<string, Hit>, nodes: seq<(string, real)>, upTo: nat)
    requires Weighed(q, best, nodes) && Grows(best, best') && Hits(q, best', upTo)
    ensures Weighed(q, best', nodes)
  {
    forall i | 0 <= i < |nodes| ensures WeighedAt(q, best', nodes[i]) {
      assert WeighedAt(q, best, nodes[i]);
      if nodes[i].0 in best { GrowsKeeps(best, best', nodes[i].0); }
      HopStays(q, best, best', upTo, nodes[i].0);
    }
  }

  lemma WeighedBoth(q: Quest, best: map<string, Hit>, a: seq<(string, real)>, b: seq<(string, real)>)
    requires Weighed(q, best, a) && Weighed(q, best, b)
    ensures Weighed(q, best, a + b)
  {
    forall i | 0 <= i < |a + b| ensures WeighedAt(q, best, (a + b)[i]) {
      if i < |a| { assert WeighedAt(q, best, a[i]); } else { assert WeighedAt(q, best, b[i - |a|]); }
    }
  }

  lemma LevelExpanded(q: Quest, best: map<string, Hit>, best': map<string, Hit>, expanded: seq<(string, real)>,
      frontier: seq<(string, real)>, next: seq<(string, real)>, d: nat)
    requires Expanded(q, best, expanded, frontier, d) && Complete(q, best, d)
    requires Advances(q, best, best') && Hits(q, best', d + 1) && Waiting(q, best', next, d + 1)
    requires AllSettled(q, best', expanded + frontier) && AllTraced(q, best', expanded + frontier)
    ensures Expanded(q, best', expanded + frontier, next, d + 1)
  {
    WeighedBoth(q, best, expanded, frontier);
    WeighedStays(q, best, best', expanded + frontier, d + 1);
    WaitingWeighed(q, best', next, d + 1);
    forall n | n in best' && best'[n].hop < d + 1 ensures InFront(expanded + frontier, n) {
      if n in best { GrowsKeeps(best, best', n); } else { NewIsDeeper(q, best, best', d, n); }
      InFrontOf(expanded, frontier, n);
    }
    forall n | n in best' && best'[n].hop == d + 1 ensures InFront(next, n) {
      WaitingHas(q, best', next, d + 1, n);
    }
  }

  // The seeds are expanded first.
  predicate SeedsAhead(q: Quest, expanded: seq<(string, real)>, frontier: seq<(string, real)>, hop: nat) {
    if hop == 0 then frontier == q.seeds && expanded == [] else q.seeds <= expanded
  }

  lemma SeedsStayAhead(q: Quest, expanded: seq<(string, real)>, frontier: seq<(string, real)>,
      next: seq<(string, real)>, d: nat)
    requires SeedsAhead(q, expanded, frontier, d)
    ensures SeedsAhead(q, expanded + frontier, next, d + 1)
  {
  }

  // A hit was recorded while there was room, so nothing nearer to the seeds than it is missing.
  ghost predicate RoomAt(q: Quest, best: map<string, Hit>, n: string) {
    n in best && best[n].hop > 0 && forall m {:trigger Present(q, best, m)} ::
      m in Ball(q.net, Sources(q), best[n].hop - 1) ==> Present(q, best, m)
  }

  ghost predicate Room(q: Quest, best: map<string, Hit>) {
    forall n {:trigger RoomAt(q, best, n)} :: n in best ==> RoomAt(q, best, n)
  }

  lemma PresentStays(q: Quest, best: map<string, Hit>, best': map<string, Hit>, m: string)
    requires Present(q, best, m) && Grows(best, best')
    ensures Present(q, best', m)
  {
    if m in best { GrowsKeeps(best, best', m); }
  }

  lemma RoomStaysAt(q: Quest, best: map<string, Hit>, best': map<string, Hit>, n: string)
    requires RoomAt(q, best, n) && Grows(best, best')
    ensures RoomAt(q, best', n)
  {
    GrowsKeeps(best, best', n);
    forall m | m in Ball(q.net, Sources(q), best[n].hop - 1) ensures Present(q, best', m) {
      assert Present(q, best, m);
      PresentStays(q, best, best', m);
    }
  }

  lemma NewHasRoom(q: Quest, best: map<string, Hit>, best': map<string, Hit>, d: nat, n: string)
    requires Complete(q, best, d) && |best| < q.limit && Grows(best, best') && n in best' && best'[n].hop == d + 1
    ensures RoomAt(q, best', n)
  {
    forall m | m in Ball(q.net, Sources(q), d) ensures Present(q, best', m) {
      CompleteHas(q, best, d, m);
      PresentStays(q, best, best', m);
    }
  }

  lemma RoomStays(q: Quest, best: map<string, Hit>, best': map<string, Hit>, d: nat)
    requires Room(q, best) && Complete(q, best, d) && Advances(q, best, best') && Hits(q, best', d + 1)
    ensures Room(q, best')
  {
    forall n | n in best' ensures RoomAt(q, best', n) {
      HitAt(q, best', d + 1, n);
      if n in best {
        RoomStaysAt(q, best, best', n);
      } else {
        NewIsDeeper(q, best, best', d, n);
        NewHasRoom(q, best, best', d, n);
      }
    }
  }

  lemma FirstInMore(q: Quest, queue: seq<(string, real)>, more: seq<(string, real)>, at: nat, node: (string, real))
    requires First(q, queue, at, node)
    ensures First(q, queue + more, at, node)
  {
    forall i | 0 <= i < at ensures !Reaches(q, (queue + more)[i], node.0) {
      assert (queue + more)[i] == queue[i] && !Reaches(q, queue[i], node.0);
    }
  }

  lemma RisingBoth(a: seq<nat>, b: seq<nat>, mid: nat)
    requires Rising(a) && Rising(b)
    requires (forall x :: 0 <= x < |a| ==> a[x] < mid) && (forall x :: 0 <= x < |b| ==> mid <= b[x])
    ensures Rising(a + b)
  {
  }

  lemma OriginsBoth(q: Quest, queue: seq<(string, real)>, mid: nat, hi: nat, more: seq<(string, real)>,
      a: seq<(string, real)>, parents: seq<nat>, origins: seq<nat>)
    requires mid <= hi && Origins(q, queue, 0, mid, a, parents) && Origins(q, queue, mid, hi, more, origins)
    ensures Origins(q, queue + more, 0, hi, a + more, parents + origins)
  {
    RisingBoth(parents, origins, mid);
    var all, from := a + more, parents + origins;
    forall x | 0 <= x < |all| ensures First(q, queue + more, from[x], all[x]) {
      if x < |a| {
        assert First(q, queue, parents[x], a[x]);
        FirstInMore(q, queue, more, parents[x], a[x]);
      } else {
        assert First(q, queue, origins[x - |a|], more[x - |a|]);
        FirstInMore(q, queue, more, origins[x - |a|], more[x - |a|]);
      }
    }
  }

  lemma OrderGrows(q: Quest, queue: seq<(string, real)>, lo: nat, parents: seq<nat>, next: seq<(string, real)>,
      origins: seq<nat>)
    requires lo <= |queue| && InOrder(q, queue, parents, lo) && Origins(q, queue, lo, |queue|, next, origins)
    ensures InOrder(q, queue + next, parents + origins, |queue|)
  {
    OriginsBoth(q, queue, lo, |queue|, next, queue[|q.seeds|..], parents, origins);
    assert (queue + next)[|q.seeds|..] == queue[|q.seeds|..] + next;
  }

  lemma FirstInFewer(q: Quest, queue: seq<(string, real)>, k: nat, at: nat, node: (string, real))
    requires k <= |queue| && at < k && First(q, queue, at, node)
    ensures First(q, queue[..k], at, node)
  {
    forall i | 0 <= i < at ensures !Reaches(q, queue[..k][i], node.0) {
      assert queue[..k][i] == queue[i] && !Reaches(q, queue[i], node.0);
    }
  }

  // Any part of the queue that holds the seeds is in order.
  lemma OrderCut(q: Quest, queue: seq<(string, real)>, parents: seq<nat>, hi: nat, k: nat)
    requires InOrder(q, queue, parents, hi) && |q.seeds| <= k <= |queue|
    ensures InOrder(q, queue[..k], parents[..k - |q.seeds|], k)
  {
    var cut, from := queue[..k], parents[..k - |q.seeds|];
    var nodes := cut[|q.seeds|..];
    forall x | 0 <= x < |nodes| ensures First(q, cut, from[x], nodes[x]) {
      assert queue[|q.seeds|..][x] == nodes[x] && First(q, queue, parents[x], queue[|q.seeds|..][x]);
      FirstInFewer(q, queue, k, parents[x], nodes[x]);
    }
  }

  // After `hop` levels.
  ghost predicate Progress(q: Quest, best: map<string, Hit>, expanded: seq<(string, real)>,
      frontier: seq<(string, real)>, hop: nat)
  {
    Hits(q, best, hop) && Complete(q, best, hop) && Front(q, best, frontier, hop)
      && Expanded(q, best, expanded, frontier, hop)
  }

  // And in order.
  ghost predicate Ranked(q: Quest, best: map<string, Hit>, expanded: seq<(string, real)>, frontier: seq<(string, real)>,
      parents: seq<nat>, hop: nat)
  {
    SeedsAhead(q, expanded, frontier, hop) && Room(q, best) && InOrder(q, expanded + frontier, parents, |expanded|)
  }

  lemma LevelProgress(q: Quest, d: nat, best: map<string, Hit>, best': map<string, Hit>, expanded: seq<(string, real)>,
      frontier: seq<(string, real)>, next: seq<(string, real)>, origins: seq<nat>)
    requires Progress(q, best, expanded, frontier, d)
    requires LevelExpansion(q, d, expanded + frontier, |expanded|, best, best', next, origins)
    ensures Progress(q, best', expanded + frontier, next, d + 1)
  {
    LevelExpanded(q, best, best', expanded, frontier, next, d);
    NextFront(q, best', next, d + 1);
  }

  lemma LevelRanked(q: Quest, d: nat, best: map<string, Hit>, best': map<string, Hit>, expanded: seq<(string, real)>,
      frontier: seq<(string, real)>, parents: seq<nat>, next: seq<(string, real)>, origins: seq<nat>)
    requires Ranked(q, best, expanded, frontier, parents, d) && Complete(q, best, d)
    requires LevelExpansion(q, d, expanded + frontier, |expanded|, best, best', next, origins)
    ensures Ranked(q, best', expanded + frontier, next, parents + origins, d + 1)
  {
    SeedsStayAhead(q, expanded, frontier, next, d);
    RoomStays(q, best, best', d);
    OrderGrows(q, expanded + frontier, |expanded|, parents, next, origins);
  }

  method NextLevel(q: Quest, ghost d: nat, hop: nat, frontier: seq<(string, real)>, best: map<string, Hit>,
      ghost expanded: seq<(string, real)>, ghost parents: seq<nat>)
    returns (best': map<string, Hit>, next: seq<(string, real)>, ghost expanded': seq<(string, real)>,
      ghost parents': seq<nat>)
    requires hop == d + 1 && Progress(q, best, expanded, frontier, d) && Ranked(q, best, expanded, frontier, parents, d)
    ensures Progress(q, best', expanded', next, hop) && Ranked(q, best', expanded', next, parents', hop)
  {
    ghost var origins;
    best', next, origins := ExpandLevel(q, d, hop, frontier, best, expanded);
    LevelProgress(q, d, best, best', expanded, frontier, next, origins);
    LevelRanked(q, d, best, best', expanded, frontier, parents, next, origins);
    expanded', parents' := expanded + frontier, parents + origins;
  }

  lemma SearchStarts(q: Quest)
    ensures Progress(q, map[], [], q.seeds, 0) && Ranked(q, map[], [], q.seeds, [], 0)
  {
    FirstFront(q);
    assert [] + q.seeds == q.seeds && q.seeds[|q.seeds|..] == [];
    forall i | 0 <= i < |q.seeds| ensures WeighedAt(q, map[], q.seeds[i]) {
      assert q.seeds[i].0 in SeedSet(q.seeds);
    }
  }

  // What the scores are made of: each hit's is the best that any expanded node brought to it, and
  // every seed and every hit short of the bound was expanded.
  ghost predicate Accounts(q: Quest, best: map<string, Hit>, expanded: seq<(string, real)>, bound: nat) {
    && AllTraced(q, best, expanded) && AllSettled(q, best, expanded) && Weighed(q, best, expanded)
    && (bound > 0 ==> q.seeds <= expanded)
    && (forall n :: n in best && best[n].hop < bound ==> InFront(expanded, n))
  }

  // Who was expanded before whom, and why: in the order of first arrivals, while there was room.
  ghost predicate Ranks(q: Quest, best: map<string, Hit>, expanded: seq<(string, real)>, parents: seq<nat>,
      bound: nat)
  {
    Room(q, best) && (bound > 0 ==> InOrder(q, expanded, parents, |expanded|))
  }

  // What the search hands over.
  ghost predicate SearchResult(q: Quest, best: map<string, Hit>, expanded: seq<(string, real)>, parents: seq<nat>,
      bound: nat)
  {
    Hits(q, best, bound) && Complete(q, best, bound) && Accounts(q, best, expanded, bound)
      && Ranks(q, best, expanded, parents, bound)
  }

  lemma AllExpanded(q: Quest, best: map<string, Hit>, expanded: seq<(string, real)>, d: nat, bound: nat)
    requires Hits(q, best, d) && Expanded(q, best, expanded, [], d) && (bound > 0 ==> q.seeds <= expanded)
    ensures Accounts(q, best, expanded, bound)
  {
    forall n | n in best ensures InFront(expanded, n) { HitAt(q, best, d, n); }
  }

  lemma HitsDeeper(q: Quest, best: map<string, Hit>, d: nat, bound: nat)
    requires Hits(q, best, d) && d <= bound
    ensures Hits(q, best, bound)
  {
    forall n | n in best ensures Good(q, best, n, bound) { HitAt(q, best, d, n); }
  }

  lemma SearchEnds(q: Quest, best: map<string, Hit>, expanded: seq<(string, real)>, frontier: seq<(string, real)>,
      parents: seq<nat>, hop: nat, bound: nat)
    requires Progress(q, best, expanded, frontier, hop) && SeedsAhead(q, expanded, frontier, hop)
    requires hop <= bound && (hop == bound || (hop > 0 && frontier == []))
    ensures Hits(q, best, bound) && Complete(q, best, bound) && Accounts(q, best, expanded, bound)
  {
    if hop < bound {
      NothingFurther(q, best, hop, bound);
      HitsDeeper(q, best, hop, bound);
      AllExpanded(q, best, expanded, hop, bound);
    }
  }

  lemma RanksEnd(q: Quest, best: map<string, Hit>, expanded: seq<(string, real)>, frontier: seq<(string, real)>,
      parents: seq<nat>, hop: nat, bound: nat) returns (parents': seq<nat>)
    requires Ranked(q, best, expanded, frontier, parents, hop) && hop <= bound && (bound > 0 ==> hop > 0)
    ensures Ranks(q, best, expanded, parents', bound)
  {
    parents' := parents;
    if bound > 0 {
      assert (expanded + frontier)[..|expanded|] == expanded;
      OrderCut(q, expanded + frontier, parents, |expanded|, |expanded|);
      parents' := parents[..|expanded| - |q.seeds|];
    }
  }

  method Search(q: Quest, bound: nat)
    returns (best: map<string, Hit>, ghost expanded: seq<(string, real)>, ghost parents: seq<nat>)
    requires q.limit > 0
    ensures SearchResult(q, best, expanded, parents, bound)
  {
    best, expanded, parents := map[], [], [];
    SearchStarts(q);
    var frontier, hop := q.seeds, 0;
    while hop < bound
      invariant hop <= bound && Progress(q, best, expanded, frontier, hop)
      invariant Ranked(q, best, expanded, frontier, parents, hop)
    {
      var next;
      ghost var d := hop;
      hop := hop + 1;
      best, next, expanded, parents := NextLevel(q, d, hop, frontier, best, expanded, parents);
      frontier := next;
      if next == [] {
        break;
      }
    }
    SearchEnds(q, best, expanded, frontier, parents, hop, bound);
    parents := RanksEnd(q, best, expanded, frontier, parents, hop, bound);
  }

  // The contract of the traversal, over the map its answer lists: nodes, hops and scores.
  ghost predicate Answers(q: Quest, out: seq<Hit>, best: map<string, Hit>, bound: nat) {
    && BestFirst(out) && |out| == |best| && (forall h :: h in out <==> h.uri in best && best[h.uri] == h)
    && Hits(q, best, bound) && Complete(q, best, bound)
  }

  // An answer as a map again.
  function Table(out: seq<Hit>): map<string, Hit> {
    if out == [] then map[] else Table(out[..|out| - 1])[out[|out| - 1].uri := out[|out| - 1]]
  }

  lemma {:induction false} TableHolds(out: seq<Hit>)
    ensures forall n :: n in Table(out) ==> Table(out)[n] in out && Table(out)[n].uri == n
    ensures forall h :: h in out ==> h.uri in Table(out)
  {
    if out != [] {
      var front, last := out[..|out| - 1], out[|out| - 1];
      assert forall h :: h in out <==> h in front || h == last;
      TableHolds(front);
    }
  }

  lemma TableOf(out: seq<Hit>, best: map<string, Hit>)
    requires forall h :: h in out <==> h.uri in best && best[h.uri] == h
    requires forall n :: n in best ==> best[n].uri == n
    ensures Table(out) == best
  {
    TableHolds(out);
    forall n | n in best ensures n in Table(out) { assert best[n] in out; }
  }

  // Everything the traversal promises of its answer.
  ghost predicate Answered(q: Quest, out: seq<Hit>, expanded: seq<(string, real)>, parents: seq<nat>, bound: nat) {
    && Answers(q, out, Table(out), bound)
    && Accounts(q, Table(out), expanded, bound) && Ranks(q, Table(out), expanded, parents, bound)
  }

  lemma NoQuest(q: Quest, bound: nat)
    requires q.seeds == [] || bound == 0 || q.limit == 0
    ensures Answers(q, [], map[], bound) && Accounts(q, map[], if bound == 0 then [] else q.seeds, bound)
    ensures Ranks(q, map[], if bound == 0 then [] else q.seeds, [], bound)
  {
    FirstFront(q);
    assert q.seeds[|q.seeds|..] == [];
    if q.seeds == [] {
      assert Sources(q) == {};
      BallOfNothing(q.net, bound);
    }
  }

  method NeighborsScored(q: Quest, depth: nat)
    returns (out: seq<Hit>, ghost expanded: seq<(string, real)>, ghost parents: seq<nat>)
    ensures Answers(q, out, Table(out), Bound(depth))
    ensures Answered(q, out, expanded, parents, Bound(depth))
  {
    out, expanded, parents := [], if Bound(depth) == 0 then [] else q.seeds, [];
    if q.seeds == [] || depth == 0 || q.limit == 0 {
      NoQuest(q, Bound(depth));
      return;
    }
    var hits;
    hits, expanded, parents := Search(q, Bound(depth));
    forall n | n in hits ensures hits[n].uri == n { HitAt(q, hits, Bound(depth), n); }
    out := SortHits(hits);
    TableOf(out, hits);
  }

  // ---- What the answer tells its reader ----

  // Hops are exact distances through visible nodes, even when the limit cuts the walk.
  lemma HopsAreDistances(q: Quest, out: seq<Hit>, best: map<string, Hit>, bound: nat, h: Hit)
    requires Answers(q, out, best, bound) && h in out
    ensures h.uri !in SeedSet(q.seeds) && 1 <= h.hop <= bound && AtDistance(q.net, Sources(q), h.uri, h.hop)
  {
    HitAt(q, best, bound, h.uri);
    LevelIsDistance(q.net, Sources(q), h.uri, h.hop);
  }

  // Below the limit the answer is everything within the bound.
  lemma AnswerIsComplete(q: Quest, out: seq<Hit>, best: map<string, Hit>, bound: nat, n: string)
    requires Answers(q, out, best, bound) && |out| < q.limit
    ensures (exists h :: h in out && h.uri == n) <==> n !in SeedSet(q.seeds) && n in Ball(q.net, Sources(q), bound)
  {
    if n in best {
      HitWithin(q, best, bound, bound, n) by { HitAt(q, best, bound, n); }
      HitAt(q, best, bound, n);
      assert best[n] in out;
    } else if n in Ball(q.net, Sources(q), bound) {
      CompleteHas(q, best, bound, n);
    }
  }

  lemma EarnedWitness(q: Quest, best: map<string, Hit>, h: Hit) returns (w: real)
    requires Earned(q, best, h)
    ensures Weighs(q, h.via, HopOf(best, h.via), w) && h.score == w * q.decay
  {
    w :| Weighs(q, h.via, HopOf(best, h.via), w) && h.score == w * q.decay;
  }

  lemma ViaIsVisible(q: Quest, best: map<string, Hit>, bound: nat, h: Hit)
    requires Hits(q, best, bound) && (h.via in Sources(q) || h.via in best)
    ensures q.net.visible(h.via)
  {
    if h.via in best { HitAt(q, best, bound, h.via); }
  }

  lemma EarnedWalk(q: Quest, best: map<string, Hit>, h: Hit) returns (k: nat, p: seq<string>)
    requires Earned(q, best, h)
    ensures k < |q.seeds| && WalkTo(q.net, {q.seeds[k].0}, p, h.via) && |p| == HopOf(best, h.via) + 1
    ensures h.score == q.seeds[k].1 * Pow(q.decay, HopOf(best, h.via) + 1)
  {
    var w := EarnedWitness(q, best, h);
    k, p := WeighsIsWalk(q, h.via, HopOf(best, h.via), w);
    Decayed(q.seeds[k].1, q.decay, HopOf(best, h.via));
  }

  // Each score is what some seed weighs at `via`, along a walk as long as via's own hop, decayed
  // once more over an edge labelled `rel`.
  lemma ScoreIsEarned(q: Quest, out: seq<Hit>, best: map<string, Hit>, bound: nat, h: Hit)
    returns (k: nat, p: seq<string>)
    requires Answers(q, out, best, bound) && h in out
    ensures Labelled(q.net.edges, h.via, h.uri, h.rel) && q.net.visible(h.via)
    ensures k < |q.seeds| && WalkTo(q.net, {q.seeds[k].0}, p, h.via) && |p| == HopOf(best, h.via) + 1
    ensures h.score == q.seeds[k].1 * Pow(q.decay, HopOf(best, h.via) + 1)
  {
    HitAt(q, best, bound, h.uri);
    ViaIsVisible(q, best, bound, h);
    k, p := EarnedWalk(q, best, h);
  }

  lemma NoneBringsMore(q: Quest, best: map<string, Hit>, expanded: seq<(string, real)>, i: nat, n: string)
    requires AllSettled(q, best, expanded) && i < |expanded| && expanded[i].0 != n && n in best
    requires n !in SeedSet(q.seeds)
    requires q.net.visible(expanded[i].0) && Step(q.net, expanded[i].0, n)
    ensures best[n].score >= expanded[i].1 * q.decay
  {
    assert NodeSettled(q, best, expanded[i]);
    assert Settled(q, best, expanded[i].0, expanded[i].1, n);
  }

  // A score is exactly the best of the arrivals: some expanded node, the hit's `via`, brought it,
  // and no expanded node that is joined to the hit, be it a seed or a hit short of the bound,
  // brought more.
  lemma ScoreIsBestArrival(q: Quest, out: seq<Hit>, best: map<string, Hit>, expanded: seq<(string, real)>, bound: nat,
      h: Hit)
    requires Answers(q, out, best, bound) && Accounts(q, best, expanded, bound) && h in out
    ensures exists i :: 0 <= i < |expanded| && expanded[i].0 == h.via && h.score == expanded[i].1 * q.decay
    ensures forall i :: 0 <= i < |expanded| && Reaches(q, expanded[i], h.uri) ==> h.score >= expanded[i].1 * q.decay
  {
    HitIsNoSeed(q, best, bound, h.uri);
    assert Traced(q, best, expanded, h.uri);
    forall i | 0 <= i < |expanded| && Reaches(q, expanded[i], h.uri)
      ensures h.score >= expanded[i].1 * q.decay
    {
      NoneBringsMore(q, best, expanded, i, h.uri);
    }
  }

  lemma SeedExpanded(seeds: seq<(string, real)>, expanded: seq<(string, real)>, k: nat)
    requires seeds <= expanded && k < |seeds|
    ensures k < |expanded| && expanded[k] == seeds[k]
  {
  }

  lemma NoHits(q: Quest, best: map<string, Hit>, n: string)
    requires Hits(q, best, 0)
    ensures n !in best
  {
    if n in best { HitAt(q, best, 0, n); }
  }

  // A neighbour of a visible seed scores at least that seed's weight decayed once.
  lemma SeedsCount(q: Quest, out: seq<Hit>, best: map<string, Hit>, expanded: seq<(string, real)>, bound: nat, k: nat,
      h: Hit)
    requires Answers(q, out, best, bound) && Accounts(q, best, expanded, bound) && h in out
    requires k < |q.seeds| && q.net.visible(q.seeds[k].0) && Step(q.net, q.seeds[k].0, h.uri)
    ensures h.score >= q.seeds[k].1 * q.decay
  {
    HitIsNoSeed(q, best, bound, h.uri);
    if bound == 0 { NoHits(q, best, h.uri); }
    SeedExpanded(q.seeds, expanded, k);
    assert q.seeds[k].0 in SeedSet(q.seeds);
    NoneBringsMore(q, best, expanded, k, h.uri);
  }

  lemma {:induction false} PowShrinks(x: real, a: nat, b: nat)
    requires 0.0 <= x <= 1.0 && a <= b
    ensures 0.0 <= Pow(x, b) <= Pow(x, a)
    decreases b
  {
    if a < b {
      PowShrinks(x, a, b - 1);
    } else if b > 0 {
      PowShrinks(x, a - 1, b - 1);
    }
  }

  lemma Scaled(w: real, x: real, y: real)
    requires 0.0 <= w && x <= y
    ensures w * x <= w * y
  {
  }

  lemma UniformWeight(q: Quest, u: string, d: nat, w: real, common: real)
    requires Weighs(q, u, d, w) && forall k :: 0 <= k < |q.seeds| ==> q.seeds[k].1 == common
    ensures w == common * Pow(q.decay, d)
  {
    var k, p := WeighsIsWalk(q, u, d, w);
  }

  lemma ViaWithin(q: Quest, best: map<string, Hit>, bound: nat, via: string)
    requires Hits(q, best, bound) && (via in Sources(q) || via in best)
    ensures via in Ball(q.net, Sources(q), HopOf(best, via))
  {
    if via in best { HitWithin(q, best, bound, best[via].hop, via); }
  }

  lemma LevelAtMost(net: Net, from: set<string>, n: string, d: nat, e: nat)
    requires AtLevel(net, from, n, d) && n in Ball(net, from, e)
    ensures d <= e
  {
    if e < d { BallGrows(net, from, e, d - 1); }
  }

  // A step changes the distance by at most one.
  lemma ViaIsClose(q: Quest, best: map<string, Hit>, bound: nat, h: Hit)
    requires Hits(q, best, bound) && HitOk(q, best, h)
    ensures h.hop <= HopOf(best, h.via) + 1
  {
    ViaWithin(q, best, bound, h.via);
    StepLevel(q.net, Sources(q), h.via, h.uri, HopOf(best, h.via));
    LevelAtMost(q.net, Sources(q), h.uri, h.hop, HopOf(best, h.via) + 1);
  }

  lemma ScoreViaHop(q: Quest, best: map<string, Hit>, h: Hit, common: real)
    requires Earned(q, best, h) && forall k :: 0 <= k < |q.seeds| ==> q.seeds[k].1 == common
    ensures h.score == common * Pow(q.decay, HopOf(best, h.via) + 1)
  {
    var w := EarnedWitness(q, best, h);
    UniformWeight(q, h.via, HopOf(best, h.via), w, common);
    Decayed(common, q.decay, HopOf(best, h.via));
  }

  lemma ScoreAtLeast(q: Quest, h: Hit, common: real)
    requires AtLeastShortest(q, h) && forall k :: 0 <= k < |q.seeds| ==> q.seeds[k].1 == common
    ensures h.score >= common * Pow(q.decay, h.hop)
  {
    var w :| Weighs(q, h.uri, h.hop, w) && w <= h.score;
    UniformWeight(q, h.uri, h.hop, w, common);
  }

  lemma DecayOrders(w: real, x: real, a: nat, b: nat)
    requires 0.0 <= w && 0.0 <= x <= 1.0 && a <= b
    ensures w * Pow(x, b) <= w * Pow(x, a)
  {
    PowShrinks(x, a, b);
    Scaled(w, Pow(x, b), Pow(x, a));
  }

  lemma UniformHit(q: Quest, best: map<string, Hit>, bound: nat, common: real, h: Hit)
    requires Hits(q, best, bound) && HitOk(q, best, h) && 0.0 <= common && 0.0 <= q.decay <= 1.0
    requires forall k :: 0 <= k < |q.seeds| ==> q.seeds[k].1 == common
    ensures h.score == common * Pow(q.decay, h.hop)
  {
    ViaIsClose(q, best, bound, h);
    ScoreViaHop(q, best, h, common);
    ScoreAtLeast(q, h, common);
    DecayOrders(common, q.decay, h.hop, HopOf(best, h.via) + 1);
  }

  // With one weight for all seeds and a decay that never amplifies, the score is a function of
  // the distance, although nodes are never expanded twice.
  lemma UniformScores(q: Quest, out: seq<Hit>, best: map<string, Hit>, bound: nat, common: real, h: Hit)
    requires Answers(q, out, best, bound) && h in out && 0.0 <= common && 0.0 <= q.decay <= 1.0
    requires forall k :: 0 <= k < |q.seeds| ==> q.seeds[k].1 == common
    ensures h.score == common * Pow(q.decay, h.hop)
  {
    HitAt(q, best, bound, h.uri);
    UniformHit(q, best, bound, common, h);
  }

  // Seeds the reader may not see start no scored walk, so it reaches no more than the plain one.
  lemma ScoredReachesNoMore(q: Quest, out: seq<Hit>, best: map<string, Hit>, bound: nat, h: Hit)
    requires Answers(q, out, best, bound) && h in out
    ensures h.uri in Ball(q.net, SeedSet(q.seeds), bound)
  {
    HitWithin(q, best, bound, bound, h.uri) by { HitAt(q, best, bound, h.uri); }
    BallMonotone(q.net, Sources(q), SeedSet(q.seeds), bound);
  }
}
