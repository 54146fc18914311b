// When the scored traversal keeps its documented promise, the score of the best path from any
// seed: exactly for seed weights that fall, and not by more than one decay in all.
module BestPaths {
  import opened Records
  import opened Walks
  import opened Scored

  ghost predicate PathTo(q: Quest, k: nat, p: seq<string>, n: string) {
    k < |q.seeds| && q.net.visible(q.seeds[k].0) && WalkTo(q.net, {q.seeds[k].0}, p, n)
  }

  // A weight decayed `n` times.
  function After(w: real, d: real, n: nat): real {
    w * Pow(d, n)
  }

  ghost function Worth(q: Quest, k: nat, p: seq<string>): real
    requires k < |q.seeds| && |p| > 0
  {
    After(q.seeds[k].1, q.decay, |p| - 1)
  }

  // No walk of at most `longest` steps from a visible seed is worth more than the score it leads to.
  ghost predicate BestPaths(q: Quest, out: seq<Hit>, longest: nat) {
    forall h, k: nat, p :: h in out && PathTo(q, k, p, h.uri) && |p| <= longest + 1 ==> h.score >= Worth(q, k, p)
  }

  // The first seed with its uri.
  predicate Lead(seeds: seq<(string, real)>, i: nat) {
    i < |seeds| && forall j :: 0 <= j < i ==> seeds[j].0 != seeds[i].0
  }

  predicate Falls(seeds: seq<(string, real)>, i: nat, j: nat) {
    i < j < |seeds| && Lead(seeds, i) && (Lead(seeds, j) || seeds[j].0 == seeds[i].0) ==> seeds[i].1 >= seeds[j].1
  }

  predicate HoldsUp(seeds: seq<(string, real)>, decay: real, j: nat) {
    Lead(seeds, j) ==> seeds[j].1 >= decay * seeds[0].1
  }

  // Of the seeds with one uri the first weighs most, the weights of different ones are listed
  // falling, and none of these is below the first weight decayed once.
  ghost predicate Steady(seeds: seq<(string, real)>, decay: real) {
    && (forall i: nat, j: nat {:trigger Falls(seeds, i, j)} :: Falls(seeds, i, j))
    && (forall j: nat {:trigger HoldsUp(seeds, decay, j)} :: HoldsUp(seeds, decay, j))
  }

  // The uri of seed `j` has a weight that is no less than that of seed `top` decayed once.
  predicate Matches(seeds: seq<(string, real)>, decay: real, top: nat, j: nat)
    requires top < |seeds| && j < |seeds|
  {
    exists i :: 0 <= i < |seeds| && seeds[i].0 == seeds[j].0 && seeds[i].1 >= decay * seeds[top].1
  }

  // Each uri has a weight that is no less than any weight decayed once, in whatever order.
  ghost predicate Even(seeds: seq<(string, real)>, decay: real) {
    forall top, j :: 0 <= top < |seeds| && 0 <= j < |seeds| ==> Matches(seeds, decay, top, j)
  }

  lemma {:induction false} LeadOf(seeds: seq<(string, real)>, k: nat) returns (i: nat)
    requires k < |seeds|
    ensures i <= k && Lead(seeds, i) && seeds[i].0 == seeds[k].0
    decreases k
  {
    if Lead(seeds, k) {
      i := k;
    } else {
      var j :| 0 <= j < k && seeds[j].0 == seeds[k].0;
      i := LeadOf(seeds, j);
    }
  }

  lemma FirstIsMost(seeds: seq<(string, real)>, decay: real, k: nat)
    requires Steady(seeds, decay) && k < |seeds|
    ensures seeds[0].1 >= seeds[k].1
  {
    var i := LeadOf(seeds, k);
    assert Falls(seeds, 0, i) && Falls(seeds, i, k);
  }

  lemma Shortfall(w: real, d: real)
    requires w < 0.0 && d < 1.0
    ensures w < d * w
  {
    assert (1.0 - d) * w < 0.0;
  }

  lemma NonnegativeOrWhole(w: real, d: real)
    requires 0.0 <= d <= 1.0 && w >= d * w
    ensures w >= 0.0 || d == 1.0
  {
    if w < 0.0 && d < 1.0 { Shortfall(w, d); }
  }

  lemma FirstHoldsUp(seeds: seq<(string, real)>, decay: real)
    requires Steady(seeds, decay) && seeds != [] && 0.0 <= decay <= 1.0
    ensures seeds[0].1 >= 0.0 || decay == 1.0
  {
    assert HoldsUp(seeds, decay, 0);
    NonnegativeOrWhole(seeds[0].1, decay);
  }

  // ---- Arithmetic ----

  lemma TimesKeeps(a: real, b: real, d: real)
    requires a >= b && d >= 0.0
    ensures a * d >= b * d
  {
  }

  lemma TimesShrinks(a: real, d: real)
    requires a >= 0.0 && 0.0 <= d <= 1.0
    ensures 0.0 <= a * d <= a
  {
  }

  lemma DecayedBelow(top: real, d: real)
    requires 0.0 <= d <= 1.0 && (top >= 0.0 || d == 1.0)
    ensures d * top <= top
  {
    if d == 1.0 { assert d * top == top; } else { TimesShrinks(top, d); }
  }

  lemma {:induction false} PowOne(n: nat)
    ensures Pow(1.0, n) == 1.0
  {
    if n > 0 { PowOne(n - 1); }
  }

  // What a weight that is at most `top` is worth after `n` steps.
  lemma WorthBelow(w: real, top: real, d: real, n: nat)
    requires 0.0 <= d <= 1.0 && w <= top && (top >= 0.0 || d == 1.0)
    ensures After(w, d, n) <= top
  {
    if d == 1.0 {
      PowOne(n);
    } else {
      PowShrinks(d, 0, n);
      if w >= 0.0 { Scaled(w, Pow(d, n), 1.0); } else { Scaled(-w, 0.0, Pow(d, n)); }
    }
  }

  // ---- Steady weights suffice ----

  predicate Sound(q: Quest, queue: seq<(string, real)>, i: nat) {
    i < |queue| && (i < |q.seeds| ==> Lead(q.seeds, i))
  }

  ghost predicate Setting(q: Quest, queue: seq<(string, real)>, parents: seq<nat>) {
    0.0 <= q.decay <= 1.0 && Steady(q.seeds, q.decay) && InOrder(q, queue, parents, |queue|) && q.seeds != []
  }

  lemma SameUriReaches(q: Quest, u: (string, real), v: (string, real), n: string)
    requires Reaches(q, v, n)
    ensures u.0 == v.0 ==> Reaches(q, u, n)
  {
  }

  lemma ParentOf(q: Quest, queue: seq<(string, real)>, parents: seq<nat>, p: nat) returns (f: nat)
    requires InOrder(q, queue, parents, |queue|) && |q.seeds| <= p < |queue|
    ensures p - |q.seeds| < |parents| && f == parents[p - |q.seeds|] && f < p && Sound(q, queue, f)
    ensures First(q, queue, f, queue[p]) && queue[p].1 == queue[f].1 * q.decay
  {
    var x := p - |q.seeds|;
    f := parents[x];
    assert queue[|q.seeds|..][x] == queue[p] && First(q, queue, parents[x], queue[|q.seeds|..][x]);
    if f < |q.seeds| {
      forall j | 0 <= j < f ensures q.seeds[j].0 != q.seeds[f].0 {
        SameUriReaches(q, queue[j], queue[f], queue[p].0);
      }
    }
  }

  lemma SeedInQueue(q: Quest, queue: seq<(string, real)>, parents: seq<nat>, i: nat)
    requires InOrder(q, queue, parents, |queue|) && i < |q.seeds|
    ensures i < |queue| && queue[i] == q.seeds[i]
  {
  }

  // No hit carries more than the first seed's weight decayed once.
  lemma {:induction false} HitBelow(q: Quest, queue: seq<(string, real)>, parents: seq<nat>, p: nat)
    requires Setting(q, queue, parents) && |q.seeds| <= p < |queue|
    ensures queue[p].1 <= q.decay * q.seeds[0].1
    decreases p
  {
    var f := ParentOf(q, queue, parents, p);
    var top := q.seeds[0].1;
    FirstHoldsUp(q.seeds, q.decay);
    DecayedBelow(top, q.decay);
    if f < |q.seeds| {
      FirstIsMost(q.seeds, q.decay, f);
      SeedInQueue(q, queue, parents, f);
    } else {
      HitBelow(q, queue, parents, f);
    }
    TimesKeeps(top, queue[f].1, q.decay);
  }

  // What nodes carry falls along the queue.
  lemma SeedAboveHit(q: Quest, queue: seq<(string, real)>, parents: seq<nat>, f: nat, i: nat)
    requires Setting(q, queue, parents) && f < |q.seeds| <= i < |queue| && Lead(q.seeds, f)
    ensures queue[f].1 >= queue[i].1
  {
    SeedInQueue(q, queue, parents, f);
    HitBelow(q, queue, parents, i);
    assert HoldsUp(q.seeds, q.decay, f);
  }

  lemma SeedAboveSeed(q: Quest, queue: seq<(string, real)>, parents: seq<nat>, f: nat, i: nat)
    requires Setting(q, queue, parents) && f <= i < |q.seeds| && Lead(q.seeds, f) && Lead(q.seeds, i)
    ensures queue[f].1 >= queue[i].1
  {
    SeedInQueue(q, queue, parents, f);
    SeedInQueue(q, queue, parents, i);
    assert Falls(q.seeds, f, i);
  }

  lemma ParentsRise(q: Quest, queue: seq<(string, real)>, parents: seq<nat>, x: nat, y: nat)
    requires InOrder(q, queue, parents, |queue|) && x <= y < |parents|
    ensures parents[x] <= parents[y]
  {
  }

  // What nodes carry falls along the queue.
  lemma {:induction false} QueueFalls(q: Quest, queue: seq<(string, real)>, parents: seq<nat>, f: nat, i: nat)
    requires Setting(q, queue, parents) && f <= i && Sound(q, queue, f) && Sound(q, queue, i)
    ensures queue[f].1 >= queue[i].1
    decreases i
  {
    if i < |q.seeds| {
      SeedAboveSeed(q, queue, parents, f, i);
    } else if f < |q.seeds| {
      SeedAboveHit(q, queue, parents, f, i);
    } else {
      var pf := ParentOf(q, queue, parents, f);
      var pi := ParentOf(q, queue, parents, i);
      ParentsRise(q, queue, parents, f - |q.seeds|, i - |q.seeds|);
      QueueFalls(q, queue, parents, pf, pi);
      TimesKeeps(queue[pf].1, queue[pi].1, q.decay);
    }
  }

  lemma LeadNoDebt(seeds: seq<(string, real)>, decay: real, i: nat)
    requires Steady(seeds, decay) && Lead(seeds, i) && 0.0 <= decay <= 1.0
    ensures seeds[i].1 >= 0.0 || decay == 1.0
  {
    FirstHoldsUp(seeds, decay);
    assert HoldsUp(seeds, decay, i);
    if decay < 1.0 { TimesShrinks(seeds[0].1, decay); }
  }

  lemma {:induction false} CarriesNoDebt(q: Quest, queue: seq<(string, real)>, parents: seq<nat>, i: nat)
    requires Setting(q, queue, parents) && Sound(q, queue, i)
    ensures queue[i].1 >= 0.0 || q.decay == 1.0
    decreases i
  {
    if i < |q.seeds| {
      SeedInQueue(q, queue, parents, i);
      LeadNoDebt(q.seeds, q.decay, i);
    } else {
      var f := ParentOf(q, queue, parents, i);
      CarriesNoDebt(q, queue, parents, f);
      if q.decay < 1.0 { TimesShrinks(queue[f].1, q.decay); }
    }
  }

  // The node at `i` is where the walk `p` from seed `k` leads, and carries at least what it is worth.
  ghost predicate Carries(q: Quest, queue: seq<(string, real)>, i: nat, n: string, worth: real) {
    Sound(q, queue, i) && queue[i].0 == n && queue[i].1 >= worth
  }

  lemma WorthNext(q: Quest, k: nat, p: seq<string>)
    requires k < |q.seeds| && |p| > 1
    ensures Worth(q, k, p) == Worth(q, k, p[..|p| - 1]) * q.decay
  {
    Decayed(q.seeds[k].1, q.decay, |p| - 2);
  }

  // No walk from a seed is worth more than the first seed's weight; past the seed, decayed once.
  lemma WorthOfSteps(q: Quest, k: nat, p: seq<string>)
    requires 0.0 <= q.decay <= 1.0 && Steady(q.seeds, q.decay) && k < |q.seeds| && |p| > 0
    ensures Worth(q, k, p) <= q.seeds[0].1
  {
    FirstHoldsUp(q.seeds, q.decay);
    FirstIsMost(q.seeds, q.decay, k);
    WorthBelow(q.seeds[k].1, q.seeds[0].1, q.decay, |p| - 1);
  }

  lemma StaysBelow(x: real, y: real, d: real)
    requires 0.0 <= d <= 1.0 && x >= y && (x >= 0.0 || d == 1.0)
    ensures x >= y * d
  {
    if y >= 0.0 { TimesShrinks(y, d); } else if d < 1.0 { TimesShrinks(-y, d); }
  }

  // Onto a seed: none is below the first weight decayed once.
  lemma OntoSeed(q: Quest, queue: seq<(string, real)>, parents: seq<nat>, at: nat, worth: real) returns (j: nat)
    requires Setting(q, queue, parents) && at < |q.seeds| && worth <= q.seeds[0].1
    ensures Carries(q, queue, j, q.seeds[at].0, worth * q.decay)
  {
    j := LeadOf(q.seeds, at);
    SeedInQueue(q, queue, parents, j);
    assert HoldsUp(q.seeds, q.decay, j);
    TimesKeeps(q.seeds[0].1, worth, q.decay);
  }

  // Onto a hit: the first to reach it carried no less.
  lemma OntoHit(q: Quest, queue: seq<(string, real)>, parents: seq<nat>, i: nat, at: nat, u: string, worth: real)
    requires Setting(q, queue, parents) && Carries(q, queue, i, u, worth)
    requires |q.seeds| <= at < |queue| && q.net.visible(u) && u != queue[at].0 && Step(q.net, u, queue[at].0)
    ensures Carries(q, queue, at, queue[at].0, worth * q.decay)
  {
    var f := ParentOf(q, queue, parents, at);
    assert Reaches(q, queue[i], queue[at].0);
    QueueFalls(q, queue, parents, f, i);
    TimesKeeps(queue[f].1, worth, q.decay);
  }

  lemma CarriedOn(q: Quest, queue: seq<(string, real)>, parents: seq<nat>, i: nat, at: nat, u: string, worth: real)
    returns (j: nat)
    requires Setting(q, queue, parents) && Carries(q, queue, i, u, worth) && worth <= q.seeds[0].1
    requires at < |queue| && q.net.visible(u) && Step(q.net, u, queue[at].0)
    ensures Carries(q, queue, j, queue[at].0, worth * q.decay)
  {
    if at < |q.seeds| {
      SeedInQueue(q, queue, parents, at);
      j := OntoSeed(q, queue, parents, at, worth);
    } else if u == queue[at].0 {
      j := i;
      CarriesNoDebt(q, queue, parents, i);
      StaysBelow(queue[i].1, worth, q.decay);
    } else {
      j := at;
      OntoHit(q, queue, parents, i, at, u, worth);
    }
  }

  lemma WalkEnds(q: Quest, k: nat, p: seq<string>)
    requires k < |q.seeds| && q.net.visible(q.seeds[k].0) && Walk(q.net, {q.seeds[k].0}, p)
    ensures q.net.visible(p[|p| - 1])
    ensures |p| > 1 ==> Walk(q.net, {q.seeds[k].0}, p[..|p| - 1]) && Step(q.net, p[|p| - 2], p[|p| - 1])
  {
  }

  ghost predicate AllInFront(queue: seq<(string, real)>, p: seq<string>) {
    forall m :: 0 <= m < |p| ==> InFront(queue, p[m])
  }

  lemma {:induction false} CarriedAlong(q: Quest, queue: seq<(string, real)>, parents: seq<nat>, k: nat, p: seq<string>)
    returns (i: nat)
    requires Setting(q, queue, parents) && k < |q.seeds| && q.net.visible(q.seeds[k].0)
    requires Walk(q.net, {q.seeds[k].0}, p)
    requires AllInFront(queue, p)
    ensures Carries(q, queue, i, p[|p| - 1], Worth(q, k, p))
    decreases |p|
  {
    WalkEnds(q, k, p);
    if |p| == 1 {
      i := LeadOf(q.seeds, k);
      SeedInQueue(q, queue, parents, i);
      if i < k { assert Falls(q.seeds, i, k); }
    } else {
      var front := p[..|p| - 1];
      i := CarriedAlong(q, queue, parents, k, front);
      WalkEnds(q, k, front);
      WorthOfSteps(q, k, front);
      WorthNext(q, k, p);
      var at: nat :| at < |queue| && queue[at].0 == p[|p| - 1];
      i := CarriedOn(q, queue, parents, i, at, front[|front| - 1], Worth(q, k, front));
    }
  }

  // ---- Along a shortest walk everyone has been expanded ----

  lemma {:induction false} WalkFront(net: Net, from: set<string>, p: seq<string>, m: nat)
    requires Walk(net, from, p) && m < |p|
    ensures Walk(net, from, p[..m + 1]) && p[..m + 1][m] == p[m]
    decreases |p|
  {
    if m == |p| - 1 {
      assert p[..m + 1] == p;
    } else {
      WalkFront(net, from, p[..|p| - 1], m);
      assert p[..|p| - 1][..m + 1] == p[..m + 1];
    }
  }

  // The `m`-th node of a walk from a visible seed is within `m` steps of the seeds.
  lemma OnWalkWithin(q: Quest, k: nat, p: seq<string>, m: nat)
    requires k < |q.seeds| && q.net.visible(q.seeds[k].0) && Walk(q.net, {q.seeds[k].0}, p) && m < |p|
    ensures p[m] in Ball(q.net, Sources(q), m)
  {
    WalkFront(q.net, {q.seeds[k].0}, p, m);
    WalkInBall(q.net, {q.seeds[k].0}, p[..m + 1]);
    assert {q.seeds[k].0} <= Sources(q);
    BallMonotone(q.net, {q.seeds[k].0}, Sources(q), m);
  }

  lemma SeedOnFront(q: Quest, expanded: seq<(string, real)>, u: string)
    requires q.seeds <= expanded && u in SeedSet(q.seeds)
    ensures InFront(expanded, u)
  {
    var i :| 0 <= i < |q.seeds| && q.seeds[i].0 == u;
    assert expanded[i] == q.seeds[i];
  }

  lemma HitOnFront(q: Quest, best: map<string, Hit>, expanded: seq<(string, real)>, bound: nat, u: string, m: nat)
    requires Hits(q, best, bound) && Accounts(q, best, expanded, bound) && u in best && u in Ball(q.net, Sources(q), m)
    requires m < bound
    ensures InFront(expanded, u)
  {
    HitAt(q, best, bound, u);
    LevelAtMost(q.net, Sources(q), u, best[u].hop, m);
  }

  lemma RoomFor(q: Quest, best: map<string, Hit>, n: string, u: string, m: nat)
    requires Room(q, best) && n in best && m < best[n].hop && u in Ball(q.net, Sources(q), m)
    ensures Present(q, best, u)
  {
    assert RoomAt(q, best, n);
    BallGrows(q.net, Sources(q), m, best[n].hop - 1);
  }

  // While a hit was recorded there was room, so everyone nearer has been recorded and expanded.
  lemma NearerExpanded(q: Quest, best: map<string, Hit>, expanded: seq<(string, real)>, bound: nat, n: string,
      u: string, m: nat)
    requires Hits(q, best, bound) && Accounts(q, best, expanded, bound) && Room(q, best) && n in best
    requires m < best[n].hop && u in Ball(q.net, Sources(q), m)
    ensures InFront(expanded, u)
  {
    HitAt(q, best, bound, n);
    RoomFor(q, best, n, u, m);
    if u in SeedSet(q.seeds) {
      SeedOnFront(q, expanded, u);
    } else {
      HitOnFront(q, best, expanded, bound, u, m);
    }
  }

  // A walk to a hit takes at least as many steps as its hop, and its nodes short of that are nearer.
  lemma WalkReaches(q: Quest, best: map<string, Hit>, bound: nat, n: string, k: nat, p: seq<string>)
    requires Hits(q, best, bound) && n in best && PathTo(q, k, p, n)
    ensures |p| >= best[n].hop + 1
  {
    HitAt(q, best, bound, n);
    OnWalkWithin(q, k, p, |p| - 1);
    LevelAtMost(q.net, Sources(q), n, best[n].hop, |p| - 1);
  }

  lemma ShortestExpanded(q: Quest, best: map<string, Hit>, expanded: seq<(string, real)>, bound: nat, n: string, k: nat,
      p: seq<string>)
    requires Hits(q, best, bound) && Accounts(q, best, expanded, bound) && Room(q, best) && n in best
    requires PathTo(q, k, p, n) && |p| == best[n].hop + 1
    ensures |p| > 1 && p[|p| - 2] in Ball(q.net, Sources(q), best[n].hop - 1)
    ensures AllInFront(expanded, p[..|p| - 1])
  {
    HitAt(q, best, bound, n);
    forall m | 0 <= m < |p| - 1 ensures InFront(expanded, p[m]) && p[m] in Ball(q.net, Sources(q), m) {
      OnWalkWithin(q, k, p, m);
      NearerExpanded(q, best, expanded, bound, n, p[m], m);
    }
  }

  lemma NearerIsOther(q: Quest, best: map<string, Hit>, bound: nat, n: string, u: string)
    requires Hits(q, best, bound) && n in best && best[n].hop > 0 && u in Ball(q.net, Sources(q), best[n].hop - 1)
    ensures u != n
  {
    HitAt(q, best, bound, n);
  }

  // A shortest walk is worth no more than the score.
  lemma ShortestPays(q: Quest, best: map<string, Hit>, expanded: seq<(string, real)>, parents: seq<nat>, bound: nat,
      n: string, k: nat, p: seq<string>)
    requires Hits(q, best, bound) && Accounts(q, best, expanded, bound) && Room(q, best)
    requires Setting(q, expanded, parents) && n in best
    requires PathTo(q, k, p, n) && |p| == best[n].hop + 1
    ensures best[n].score >= Worth(q, k, p)
  {
    var front := p[..|p| - 1];
    ShortestExpanded(q, best, expanded, bound, n, k, p);
    WalkEnds(q, k, p);
    WalkEnds(q, k, front);
    var i := CarriedAlong(q, expanded, parents, k, front);
    NearerIsOther(q, best, bound, n, p[|p| - 2]);
    HitIsNoSeed(q, best, bound, n);
    NoneBringsMore(q, best, expanded, i, n);
    assert best[n].score >= expanded[i].1 * q.decay;
    WorthNext(q, k, p);
    TimesKeeps(expanded[i].1, Worth(q, k, front), q.decay);
    assert Worth(q, k, p) == Worth(q, k, front) * q.decay;
  }

  // ---- A longer walk is worth no more than a shortest one ----

  lemma {:induction false} StartOf(q: Quest, p: seq<string>) returns (k: nat)
    requires Walk(q.net, Sources(q), p)
    ensures Lead(q.seeds, k) && q.net.visible(q.seeds[k].0) && Walk(q.net, {q.seeds[k].0}, p)
    decreases |p|
  {
    if |p| == 1 {
      var i: nat :| i < |q.seeds| && q.seeds[i].0 == p[0];
      k := LeadOf(q.seeds, i);
    } else {
      k := StartOf(q, p[..|p| - 1]);
    }
  }

  lemma ShortestExists(q: Quest, best: map<string, Hit>, bound: nat, n: string) returns (k: nat, p: seq<string>)
    requires Hits(q, best, bound) && n in best
    ensures PathTo(q, k, p, n) && |p| == best[n].hop + 1 && Lead(q.seeds, k)
  {
    HitAt(q, best, bound, n);
    LevelIsDistance(q.net, Sources(q), n, best[n].hop);
    p :| WalkTo(q.net, Sources(q), p, n) && |p| == best[n].hop + 1;
    k := StartOf(q, p);
  }

  lemma {:induction false} PowSplits(x: real, a: nat, b: nat)
    ensures Pow(x, a + b) == Pow(x, a) * Pow(x, b)
  {
    if b > 0 {
      PowSplits(x, a, b - 1);
      assert Pow(x, a + b) == Pow(x, a + (b - 1)) * x;
    }
  }

  lemma PowLonger(d: real, m: nat, l: nat)
    requires m < l
    ensures Pow(d, l) == Pow(d, m) * d * Pow(d, l - m - 1)
  {
    PowSplits(d, m + 1, l - m - 1);
  }

  lemma PowNonnegative(d: real, n: nat)
    requires 0.0 <= d <= 1.0
    ensures Pow(d, n) >= 0.0
  {
    PowShrinks(d, 0, n);
  }

  lemma LongerReal(w: real, lead: real, top: real, d: real, a: real, c: real, all: real)
    requires a >= 0.0 && d >= 0.0 && w * c <= top && lead >= d * top && all == a * d * c
    ensures w * all <= lead * a
  {
    TimesKeeps(top, w * c, a * d);
    TimesKeeps(lead, d * top, a);
    assert w * (a * d * c) == w * c * (a * d);
    assert top * (a * d) == d * top * a;
  }

  lemma LongerFrom(w: real, lead: real, top: real, d: real, m: nat, l: nat)
    requires 0.0 <= d <= 1.0 && m < l && After(w, d, l - m - 1) <= top && lead >= d * top
    ensures After(w, d, l) <= After(lead, d, m)
  {
    PowNonnegative(d, m);
    PowLonger(d, m, l);
    LongerReal(w, lead, top, d, Pow(d, m), Pow(d, l - m - 1), Pow(d, l));
  }

  lemma LongerWorth(w: real, lead: real, top: real, d: real, m: nat, l: nat)
    requires 0.0 <= d <= 1.0 && w <= top && lead >= d * top && (top >= 0.0 || d == 1.0) && m < l
    ensures After(w, d, l) <= After(lead, d, m)
  {
    WorthBelow(w, top, d, l - m - 1);
    LongerFrom(w, lead, top, d, m, l);
  }

  lemma LongerBelow(q: Quest, k: nat, l: nat, m: nat, n: nat)
    requires 0.0 <= q.decay <= 1.0 && Steady(q.seeds, q.decay) && k < |q.seeds| && Lead(q.seeds, l) && m < n
    ensures After(q.seeds[k].1, q.decay, n) <= After(q.seeds[l].1, q.decay, m)
  {
    FirstHoldsUp(q.seeds, q.decay);
    FirstIsMost(q.seeds, q.decay, k);
    assert HoldsUp(q.seeds, q.decay, l);
    LongerWorth(q.seeds[k].1, q.seeds[l].1, q.seeds[0].1, q.decay, m, n);
  }

  lemma LongerPays(q: Quest, best: map<string, Hit>, expanded: seq<(string, real)>, parents: seq<nat>, bound: nat,
      n: string, k: nat, p: seq<string>)
    requires Hits(q, best, bound) && Accounts(q, best, expanded, bound) && Room(q, best)
    requires Setting(q, expanded, parents) && n in best
    requires PathTo(q, k, p, n) && |p| > best[n].hop + 1
    ensures best[n].score >= Worth(q, k, p)
  {
    var l, s := ShortestExists(q, best, bound, n);
    ShortestPays(q, best, expanded, parents, bound, n, l, s);
    LongerBelow(q, k, l, best[n].hop, |p| - 1);
  }

  // Steady weights: the score is that of the best path, whatever the graph and however it is cut.
  lemma SteadySuffices(q: Quest, out: seq<Hit>, expanded: seq<(string, real)>, parents: seq<nat>, bound: nat, h: Hit,
      k: nat, p: seq<string>)
    requires 0.0 <= q.decay <= 1.0 && Steady(q.seeds, q.decay) && Answered(q, out, expanded, parents, bound)
    requires h in out && PathTo(q, k, p, h.uri)
    ensures h.score >= Worth(q, k, p)
  {
    var best := Table(out);
    HitAt(q, best, bound, h.uri);
    WalkReaches(q, best, bound, h.uri, k, p);
    if |p| == h.hop + 1 {
      ShortestPays(q, best, expanded, parents, bound, h.uri, k, p);
    } else {
      LongerPays(q, best, expanded, parents, bound, h.uri, k, p);
    }
  }

  // ---- Unsteady weights: seeds that rise ----

  // Two seed uris joined to x, and x to n.
  function RisingNet(a: string, b: string, x: string, n: string): Net {
    Net({Edge(a, x, "links"), Edge(b, x, "links"), Edge(x, n, "links")}, u => true)
  }

  lemma RisingSteps(a: string, b: string, x: string, n: string, u: string, v: string)
    requires x != n && x != a && x != b && n != a && n != b
    ensures var net := RisingNet(a, b, x, n);
      Step(net, u, v) <==> ((u == a || u == b || u == n) && v == x) || (u == x && (v == a || v == b || v == n))
  {
    var es := RisingNet(a, b, x, n).edges;
    assert Edge(a, x, "links") in es && Edge(b, x, "links") in es && Edge(x, n, "links") in es;
  }

  // Only nodes the answer may list are listed, and those within reach are, given room.
  lemma ListedIfRoom(q: Quest, out: seq<Hit>, best: map<string, Hit>, bound: nat, n: string, only: set<string>)
    requires Answers(q, out, best, bound) && n in Ball(q.net, Sources(q), bound) && n !in SeedSet(q.seeds)
    requires (forall m :: m in best ==> m in only) && n in only && |only| <= q.limit
    ensures n in best && best[n] in out && best[n].uri == n
  {
    if |best| < q.limit {
      CompleteHas(q, best, bound, n);
    } else if n !in best {
      SubsetSize(best.Keys, only - {n});
    }
    HitAt(q, best, bound, n);
  }

  // A hit is joined to what it came from, and is no seed.
  lemma HitJoinsVia(q: Quest, best: map<string, Hit>, bound: nat, n: string)
    requires Hits(q, best, bound) && n in best
    ensures Step(q.net, best[n].via, n) && n !in SeedSet(q.seeds)
  {
    HitAt(q, best, bound, n);
  }

  ghost predicate Rises(seeds: seq<(string, real)>, i: nat, j: nat) {
    i < j < |seeds| && Lead(seeds, i) && (Lead(seeds, j) || seeds[j].0 == seeds[i].0) && seeds[i].1 < seeds[j].1
  }

  // The first to reach x is the earlier, lighter seed, whose weight it passes on to n.
  lemma RisingFirst(q: Quest, i: nat, j: nat, x: string, n: string, queue: seq<(string, real)>, parents: seq<nat>,
      p: nat)
    requires Rises(q.seeds, i, j) && x !in SeedSet(q.seeds) && n !in SeedSet(q.seeds) && x != n
    requires q.net == RisingNet(q.seeds[i].0, q.seeds[j].0, x, n)
    requires InOrder(q, queue, parents, |queue|) && p < |queue| && queue[p].0 == x
    ensures queue[p].1 == q.seeds[i].1 * q.decay
  {
    var a, b := q.seeds[i].0, q.seeds[j].0;
    assert a in SeedSet(q.seeds) && b in SeedSet(q.seeds);
    SeedInQueue(q, queue, parents, i);
    if |q.seeds| <= p {
      var f := ParentOf(q, queue, parents, p);
      RisingSteps(a, b, x, n, queue[f].0, x);
      RisingSteps(a, b, x, n, a, x);
      assert Reaches(q, queue[i], x);
      assert f <= i;
      SeedInQueue(q, queue, parents, f);
      assert q.seeds[f].0 in SeedSet(q.seeds);
    }
  }

  lemma RisingReached(q: Quest, i: nat, j: nat, x: string, n: string, bound: nat)
    requires Rises(q.seeds, i, j) && x !in SeedSet(q.seeds) && n !in SeedSet(q.seeds) && x != n
    requires q.net == RisingNet(q.seeds[i].0, q.seeds[j].0, x, n) && bound >= 2
    ensures n in Ball(q.net, Sources(q), bound) && PathTo(q, j, [q.seeds[j].0, x, n], n)
  {
    var a, b := q.seeds[i].0, q.seeds[j].0;
    assert a in SeedSet(q.seeds) && b in SeedSet(q.seeds);
    RisingSteps(a, b, x, n, b, x);
    RisingSteps(a, b, x, n, x, n);
    StepLevel(q.net, Sources(q), b, x, 0);
    StepLevel(q.net, Sources(q), x, n, 1);
    BallGrows(q.net, Sources(q), 2, bound);
    WalkSnoc(q.net, {b}, [b], b, x);
    WalkSnoc(q.net, {b}, [b] + [x], x, n);
    assert [b] + [x] + [n] == [b, x, n];
  }

  lemma RisingListed(q: Quest, i: nat, j: nat, x: string, n: string, out: seq<Hit>, best: map<string, Hit>, bound: nat)
    requires Rises(q.seeds, i, j) && x !in SeedSet(q.seeds) && n !in SeedSet(q.seeds) && x != n
    requires q.net == RisingNet(q.seeds[i].0, q.seeds[j].0, x, n) && bound >= 2 && q.limit >= 2
    requires Answers(q, out, best, bound)
    ensures n in best && best[n] in out && best[n].uri == n && best[n].via == x
  {
    var a, b := q.seeds[i].0, q.seeds[j].0;
    assert a in SeedSet(q.seeds) && b in SeedSet(q.seeds);
    RisingReached(q, i, j, x, n, bound);
    forall m | m in best ensures m in {x, n} {
      HitJoinsVia(q, best, bound, m);
      RisingSteps(a, b, x, n, best[m].via, m);
    }
    ListedIfRoom(q, out, best, bound, n, {x, n});
    HitJoinsVia(q, best, bound, n);
    RisingSteps(a, b, x, n, best[n].via, n);
  }

  function Twice(w: real, d: real): real {
    w * d * d
  }

  lemma RisingScore(q: Quest, i: nat, j: nat, x: string, n: string, best: map<string, Hit>,
      expanded: seq<(string, real)>, parents: seq<nat>)
    requires Rises(q.seeds, i, j) && x !in SeedSet(q.seeds) && n !in SeedSet(q.seeds) && x != n
    requires q.net == RisingNet(q.seeds[i].0, q.seeds[j].0, x, n)
    requires InOrder(q, expanded, parents, |expanded|) && Traced(q, best, expanded, n) && best[n].via == x
    ensures best[n].score == Twice(q.seeds[i].1, q.decay)
  {
    var p: nat :| p < |expanded| && expanded[p].0 == x && best[n].score == expanded[p].1 * q.decay;
    RisingFirst(q, i, j, x, n, expanded, parents, p);
  }

  lemma AnsweredParts(q: Quest, out: seq<Hit>, expanded: seq<(string, real)>, parents: seq<nat>, bound: nat, n: string)
    requires Answered(q, out, expanded, parents, bound) && bound > 0 && n in Table(out)
    ensures InOrder(q, expanded, parents, |expanded|) && Traced(q, Table(out), expanded, n)
  {
    assert AllTraced(q, Table(out), expanded);
  }

  lemma TwoSteps(q: Quest, k: nat, p: seq<string>)
    requires k < |q.seeds| && |p| == 3
    ensures Worth(q, k, p) == Twice(q.seeds[k].1, q.decay)
  {
    assert Pow(q.decay, 2) == Pow(q.decay, 1) * q.decay && Pow(q.decay, 1) == 1.0 * q.decay;
  }

  lemma TimesLess(x: real, y: real, d: real)
    requires x < y && d > 0.0
    ensures x * d < y * d
  {
  }

  lemma Beaten(x: real, y: real, d: real)
    requires x < y && d > 0.0
    ensures Twice(x, d) < Twice(y, d)
  {
    TimesLess(x, y, d);
    TimesLess(x * d, y * d, d);
  }

  lemma RisingBeaten(q: Quest, i: nat, j: nat, p: seq<string>)
    requires Rises(q.seeds, i, j) && q.decay > 0.0 && |p| == 3
    ensures Twice(q.seeds[i].1, q.decay) < Worth(q, j, p)
  {
    TwoSteps(q, j, p);
    Beaten(q.seeds[i].1, q.seeds[j].1, q.decay);
  }

  // An upgrade is not passed on: the heavier seed's arrival at x comes too late for n, in every
  // answer on this graph.
  lemma UpgradeIsNotPassedOn(q: Quest, i: nat, j: nat, x: string, n: string, out: seq<Hit>,
      expanded: seq<(string, real)>, parents: seq<nat>, bound: nat) returns (h: Hit)
    requires Rises(q.seeds, i, j) && x !in SeedSet(q.seeds) && n !in SeedSet(q.seeds) && x != n
    requires q.net == RisingNet(q.seeds[i].0, q.seeds[j].0, x, n) && bound >= 2 && q.limit >= 2 && q.decay > 0.0
    requires Answered(q, out, expanded, parents, bound)
    ensures h in out && h.uri == n && h.score == Twice(q.seeds[i].1, q.decay)
    ensures PathTo(q, j, [q.seeds[j].0, x, n], n) && h.score < Worth(q, j, [q.seeds[j].0, x, n])
  {
    RisingListed(q, i, j, x, n, out, Table(out), bound);
    h := Table(out)[n];
    AnsweredParts(q, out, expanded, parents, bound, n);
    RisingScore(q, i, j, x, n, Table(out), expanded, parents);
    RisingReached(q, i, j, x, n, bound);
    RisingBeaten(q, i, j, [q.seeds[j].0, x, n]);
  }

  // ---- Unsteady weights: a seed too light beside the first ----

  function LightNet(s: string, t: string, x: string): Net {
    Net({Edge(s, t, "links"), Edge(t, x, "links")}, u => true)
  }

  lemma LightSteps(s: string, t: string, x: string, u: string, v: string)
    ensures Step(LightNet(s, t, x), u, v) <==>
      (u == s && v == t) || (u == t && v == s) || (u == t && v == x) || (u == x && v == t)
  {
    var es := LightNet(s, t, x).edges;
    assert Edge(s, t, "links") in es && Edge(t, x, "links") in es;
  }

  // Whatever weight seed `j`'s uri has in the list, it is less than that of seed `top` decayed once.
  predicate Light(seeds: seq<(string, real)>, decay: real, top: nat, j: nat) {
    top < |seeds| && j < |seeds| && !Matches(seeds, decay, top, j)
  }

  lemma LightReached(q: Quest, top: nat, j: nat, x: string, bound: nat)
    requires Light(q.seeds, q.decay, top, j) && x !in SeedSet(q.seeds) && bound >= 1
    requires q.net == LightNet(q.seeds[top].0, q.seeds[j].0, x)
    ensures x in Ball(q.net, Sources(q), bound) && PathTo(q, top, [q.seeds[top].0, q.seeds[j].0, x], x)
  {
    var s, t := q.seeds[top].0, q.seeds[j].0;
    assert s in SeedSet(q.seeds) && t in SeedSet(q.seeds);
    LightSteps(s, t, x, s, t);
    LightSteps(s, t, x, t, x);
    StepLevel(q.net, Sources(q), t, x, 0);
    BallGrows(q.net, Sources(q), 1, bound);
    WalkSnoc(q.net, {s}, [s], s, t);
    WalkSnoc(q.net, {s}, [s] + [t], t, x);
    assert [s] + [t] + [x] == [s, t, x];
  }

  lemma SeedWeighs(q: Quest, best: map<string, Hit>, bound: nat, t: string, w: real)
    requires Hits(q, best, bound) && t in SeedSet(q.seeds) && Weighs(q, t, HopOf(best, t), w)
    ensures exists k :: 0 <= k < |q.seeds| && q.seeds[k].0 == t && q.seeds[k].1 == w
  {
    if t in best { HitIsNoSeed(q, best, bound, t); }
  }

  lemma LightListed(q: Quest, top: nat, j: nat, x: string, out: seq<Hit>, best: map<string, Hit>, bound: nat)
    requires Light(q.seeds, q.decay, top, j) && x !in SeedSet(q.seeds)
    requires q.net == LightNet(q.seeds[top].0, q.seeds[j].0, x)
    requires bound >= 1 && q.limit >= 1 && Answers(q, out, best, bound)
    ensures x in best && best[x] in out && best[x].uri == x && best[x].via == q.seeds[j].0
  {
    var s, t := q.seeds[top].0, q.seeds[j].0;
    assert s in SeedSet(q.seeds) && t in SeedSet(q.seeds);
    LightReached(q, top, j, x, bound);
    forall m | m in best ensures m in {x} {
      HitJoinsVia(q, best, bound, m);
      LightSteps(s, t, x, best[m].via, m);
    }
    ListedIfRoom(q, out, best, bound, x, {x});
    HitJoinsVia(q, best, bound, x);
    LightSteps(s, t, x, best[x].via, x);
  }

  lemma LightEarned(q: Quest, best: map<string, Hit>, bound: nat, x: string) returns (w: real)
    requires Hits(q, best, bound) && x in best
    ensures Weighs(q, best[x].via, HopOf(best, best[x].via), w) && best[x].score == w * q.decay
  {
    HitAt(q, best, bound, x);
    w := EarnedWitness(q, best, best[x]);
  }

  lemma BeatenTwice(x: real, top: real, d: real)
    requires d > 0.0 && x < d * top
    ensures x * d < Twice(top, d)
  {
    assert (d * top - x) * d > 0.0;
  }

  lemma LightScore(q: Quest, top: nat, j: nat, x: string, best: map<string, Hit>, bound: nat)
    requires Light(q.seeds, q.decay, top, j) && q.decay > 0.0 && Hits(q, best, bound) && x in best
    requires best[x].via == q.seeds[j].0
    ensures best[x].score < Twice(q.seeds[top].1, q.decay)
  {
    var w := LightEarned(q, best, bound, x);
    assert q.seeds[j].0 in SeedSet(q.seeds);
    SeedWeighs(q, best, bound, q.seeds[j].0, w);
    BeatenTwice(w, q.seeds[top].1, q.decay);
  }

  // Seeds are not scored: what a heavy seed brings to a light one goes no further, in every answer
  // on this graph.
  lemma SeedIsNotRaised(q: Quest, top: nat, j: nat, x: string, out: seq<Hit>, best: map<string, Hit>, bound: nat)
    returns (h: Hit)
    requires Light(q.seeds, q.decay, top, j) && x !in SeedSet(q.seeds)
    requires q.net == LightNet(q.seeds[top].0, q.seeds[j].0, x)
    requires bound >= 1 && q.limit >= 1 && q.decay > 0.0 && Answers(q, out, best, bound)
    ensures h in out && h.uri == x && PathTo(q, top, [q.seeds[top].0, q.seeds[j].0, x], x)
    ensures h.score < Worth(q, top, [q.seeds[top].0, q.seeds[j].0, x])
  {
    LightListed(q, top, j, x, out, best, bound);
    LightScore(q, top, j, x, best, bound);
    h := best[x];
    LightReached(q, top, j, x, bound);
    TwoSteps(q, top, [q.seeds[top].0, q.seeds[j].0, x]);
  }

  // ---- An answer for every question ----

  lemma {:induction false} SomeEdges(todo: set<Edge>) returns (es: seq<Edge>)
    ensures forall e :: e in es <==> e in todo
  {
    es := [];
    if todo != {} {
      var e :| e in todo;
      es := SomeEdges(todo - {e});
      es := es + [e];
    }
  }

  lemma SomeServed(q: Quest, u: string) returns (es: seq<Edge>)
    ensures Served(q, u, es)
  {
    es := SomeEdges(set e | e in q.net.edges && Touching(e, u) && q.net.visible(u) && q.net.visible(Other(e, u)));
  }

  lemma SomeNode(q: Quest, d: nat, node: (string, real), best: map<string, Hit>, next: seq<(string, real)>,
      expanded: seq<(string, real)>, at: nat) returns (best': map<string, Hit>, next': seq<(string, real)>)
    requires AllTraced(q, best, expanded) && at < |expanded| && expanded[at] == node && FrontAt(q, best, node, d)
    requires Hits(q, best, d + 1) && Waiting(q, best, next, d + 1) && Complete(q, best, d)
    ensures NodeExpanded(q, d, node, best, next, best', next', expanded)
  {
    best', next' := best, next;
    var es := SomeServed(q, node.0);
    FollowingStarts(q, d, node, es, best, next, expanded);
    for i := 0 to |es|
      invariant Following(q, d, node, es, i, best, next, best', next', expanded)
    {
      FollowNext(q, d, node, es, i, best, next, best', next', expanded, at);
      var after := Arrive(q, d + 1, node, es[i], best', next');
      best', next' := after.best, after.next;
    }
    AllFollowed(q, best', node.0, node.1, es);
  }

  lemma SomeLevel(q: Quest, d: nat, frontier: seq<(string, real)>, best: map<string, Hit>, earlier: seq<(string, real)>)
    returns (best': map<string, Hit>, next: seq<(string, real)>, origins: seq<nat>)
    requires AllTraced(q, best, earlier) && AllSettled(q, best, earlier)
    requires Hits(q, best, d) && Front(q, best, frontier, d) && Complete(q, best, d)
    ensures LevelExpansion(q, d, earlier + frontier, |earlier|, best, best', next, origins)
  {
    best', next, origins := best, [], [];
    var queue, lo := earlier + frontier, |earlier|;
    LevelStarts(q, d, earlier, frontier, best);
    for j := 0 to |frontier|
      invariant Leveling(q, d, queue, lo, lo + j, best, best', next, origins)
    {
      var was, waiting := best', next;
      LevelNode(q, d, earlier, frontier, j, best, best', next, origins);
      best', next := SomeNode(q, d, frontier[j], best', next, queue, lo + j);
      LevelNext(q, d, queue, lo, lo + j, frontier[j], best, was, waiting, origins, best', next, lo + (j + 1));
      origins := origins + Again(lo + j, |next| - |waiting|);
    }
    LevelEnds(q, d, earlier, frontier, best, best', next, origins);
  }

  lemma SomeNext(q: Quest, hop: nat, frontier: seq<(string, real)>, best: map<string, Hit>,
      expanded: seq<(string, real)>, parents: seq<nat>)
    returns (best': map<string, Hit>, next: seq<(string, real)>, expanded': seq<(string, real)>, parents': seq<nat>)
    requires Progress(q, best, expanded, frontier, hop) && Ranked(q, best, expanded, frontier, parents, hop)
    ensures Progress(q, best', expanded', next, hop + 1) && Ranked(q, best', expanded', next, parents', hop + 1)
  {
    var origins;
    best', next, origins := SomeLevel(q, hop, frontier, best, expanded);
    LevelProgress(q, hop, best, best', expanded, frontier, next, origins);
    LevelRanked(q, hop, best, best', expanded, frontier, parents, next, origins);
    expanded', parents' := expanded + frontier, parents + origins;
  }

  lemma SomeSearch(q: Quest, bound: nat)
    returns (best: map<string, Hit>, expanded: seq<(string, real)>, parents: seq<nat>)
    ensures SearchResult(q, best, expanded, parents, bound)
  {
    best, expanded, parents := map[], [], [];
    SearchStarts(q);
    var frontier := q.seeds;
    for hop := 0 to bound
      invariant Progress(q, best, expanded, frontier, hop) && Ranked(q, best, expanded, frontier, parents, hop)
    {
      best, frontier, expanded, parents := SomeNext(q, hop, frontier, best, expanded, parents);
    }
    SearchEnds(q, best, expanded, frontier, parents, bound, bound);
    parents := RanksEnd(q, best, expanded, frontier, parents, bound, bound);
  }

  lemma {:induction false} SomeOrder(best: map<string, Hit>, todo: set<string>) returns (out: seq<Hit>)
    requires todo <= best.Keys && forall n :: n in best ==> best[n].uri == n
    ensures BestFirst(out) && |out| == |todo| && forall h :: h in out <==> h.uri in todo && best[h.uri] == h
  {
    out := [];
    if todo != {} {
      var n :| n in todo;
      out := SomeOrder(best, todo - {n});
      PlaceHitSorted(best[n], out);
      PlaceHitMembers(best[n], out);
      out := PlaceHit(best[n], out);
    }
  }

  // The promise is never empty: every question has an answer that meets it.
  lemma SomeAnswer(q: Quest, bound: nat) returns (out: seq<Hit>, expanded: seq<(string, real)>, parents: seq<nat>)
    ensures Answered(q, out, expanded, parents, bound)
  {
    var best;
    best, expanded, parents := SomeSearch(q, bound);
    forall n | n in best ensures best[n].uri == n { HitAt(q, best, bound, n); }
    out := SomeOrder(best, best.Keys);
    TableOf(out, best);
  }

  // ---- Exactly when ----

  lemma {:induction false} LongestOf(s: set<string>) returns (n: nat)
    ensures forall u :: u in s ==> |u| <= n
  {
    n := 0;
    if s != {} {
      var u :| u in s;
      n := LongestOf(s - {u});
      n := if n < |u| then |u| else n;
    }
  }

  // Uris nobody uses yet.
  lemma FreshUris(s: set<string>) returns (x: string, n: string)
    ensures x !in s && n !in s && x != n
  {
    var k := LongestOf(s);
    x, n := seq(k + 1, _ => 'x'), seq(k + 2, _ => 'x');
    assert |x| == k + 1 && |n| == k + 2;
  }

  lemma Unsteady(seeds: seq<(string, real)>, decay: real) returns (i: nat, j: nat)
    requires !Steady(seeds, decay)
    ensures Rises(seeds, i, j)
      || ((forall k: nat, l: nat {:trigger Falls(seeds, k, l)} :: Falls(seeds, k, l)) && Lead(seeds, j)
        && seeds[j].1 < decay * seeds[0].1)
  {
    if k: nat, l: nat :| !Falls(seeds, k, l) {
      i, j := k, l;
    } else {
      i := 0;
      j :| !HoldsUp(seeds, decay, j);
    }
  }

  lemma NotRisingIsLight(seeds: seq<(string, real)>, decay: real, j: nat)
    requires forall k: nat, l: nat {:trigger Falls(seeds, k, l)} :: Falls(seeds, k, l)
    requires Lead(seeds, j) && seeds[j].1 < decay * seeds[0].1
    ensures Light(seeds, decay, 0, j)
  {
    forall k | 0 <= k < |seeds| && seeds[k].0 == seeds[j].0 ensures seeds[k].1 < decay * seeds[0].1 {
      assert Falls(seeds, j, k);
    }
  }

  // Every answer on this graph falls short of some path.
  ghost predicate Breaks(q: Quest, bound: nat) {
    forall out, expanded, parents {:trigger Answered(q, out, expanded, parents, bound)} ::
      Answered(q, out, expanded, parents, bound) ==> !BestPaths(q, out, bound)
  }

  lemma RisingBreaks(q: Quest, i: nat, j: nat, x: string, n: string, bound: nat)
    requires Rises(q.seeds, i, j) && x !in SeedSet(q.seeds) && n !in SeedSet(q.seeds) && x != n
    requires q.net == RisingNet(q.seeds[i].0, q.seeds[j].0, x, n) && bound >= 2 && q.limit >= 2 && q.decay > 0.0
    ensures Breaks(q, bound)
  {
    forall out, expanded, parents | Answered(q, out, expanded, parents, bound) ensures !BestPaths(q, out, bound) {
      var h := UpgradeIsNotPassedOn(q, i, j, x, n, out, expanded, parents, bound);
    }
  }

  lemma LightBreaks(q: Quest, top: nat, j: nat, x: string, bound: nat)
    requires Light(q.seeds, q.decay, top, j) && x !in SeedSet(q.seeds)
    requires q.net == LightNet(q.seeds[top].0, q.seeds[j].0, x) && bound >= 2 && q.limit >= 1 && q.decay > 0.0
    ensures Breaks(q, bound)
  {
    forall out, expanded, parents | Answered(q, out, expanded, parents, bound) ensures !BestPaths(q, out, bound) {
      var h := SeedIsNotRaised(q, top, j, x, out, Table(out), bound);
    }
  }

  // For other weights there is such a graph.
  lemma UnsteadyFails(seeds: seq<(string, real)>, decay: real, limit: nat, bound: nat) returns (net: Net)
    requires !Steady(seeds, decay) && decay > 0.0 && limit >= 2 && bound >= 2
    ensures Breaks(Quest(net, seeds, decay, limit), bound)
  {
    var i, j := Unsteady(seeds, decay);
    var x, n := FreshUris(SeedSet(seeds));
    if Rises(seeds, i, j) {
      net := RisingNet(seeds[i].0, seeds[j].0, x, n);
      RisingBreaks(Quest(net, seeds, decay, limit), i, j, x, n, bound);
    } else {
      NotRisingIsLight(seeds, decay, j);
      net := LightNet(seeds[0].0, seeds[j].0, x);
      LightBreaks(Quest(net, seeds, decay, limit), 0, j, x, bound);
    }
  }

  lemma UnevenFails(seeds: seq<(string, real)>, decay: real, limit: nat, bound: nat) returns (net: Net)
    requires !Even(seeds, decay) && decay > 0.0 && limit >= 1 && bound >= 2
    ensures Breaks(Quest(net, seeds, decay, limit), bound)
  {
    var top: nat, j: nat :| top < |seeds| && j < |seeds| && !Matches(seeds, decay, top, j);
    var x, _ := FreshUris(SeedSet(seeds));
    net := LightNet(seeds[top].0, seeds[j].0, x);
    LightBreaks(Quest(net, seeds, decay, limit), top, j, x, bound);
  }

  // ---- Room for one hit ----

  lemma OnlyOne(s: set<string>, u: string, n: string)
    requires |s| <= 1 && u in s && n in s
    ensures u == n
  {
    SubsetSize({u, n}, s);
  }

  // The one hit is joined to a visible seed: while it was recorded there was room for everyone nearer.
  lemma OnlyHit(q: Quest, best: map<string, Hit>, bound: nat, n: string) returns (j: nat)
    requires q.limit == 1 && Hits(q, best, bound) && Room(q, best) && n in best
    ensures j < |q.seeds| && q.net.visible(q.seeds[j].0) && Step(q.net, q.seeds[j].0, n)
  {
    HitAt(q, best, bound, n);
    var d := best[n].hop - 1;
    var u :| u in Ball(q.net, Sources(q), d) && Step(q.net, u, n);
    RoomFor(q, best, n, u, d);
    BallVisible(q, d);
    if u in best { OnlyOne(best.Keys, u, n); }
    j :| j < |q.seeds| && q.seeds[j].0 == u;
  }

  lemma {:induction false} Heaviest(seeds: seq<(string, real)>) returns (m: nat)
    requires seeds != []
    ensures m < |seeds| && forall k :: 0 <= k < |seeds| ==> seeds[k].1 <= seeds[m].1
  {
    m := 0;
    if |seeds| > 1 {
      m := Heaviest(seeds[..|seeds| - 1]);
      if seeds[m].1 < seeds[|seeds| - 1].1 { m := |seeds| - 1; }
    }
  }

  lemma TwiceBelow(x: real, top: real, mine: real, d: real)
    requires d >= 0.0 && x <= top && mine >= d * top
    ensures mine * d >= Twice(x, d)
  {
    TimesKeeps(top, x, d);
    TimesKeeps(mine, x * d, d);
  }

  // A weight decayed twice or more is no more than what a uri that matches the heaviest brings.
  lemma EvenPays(w: real, top: real, mine: real, d: real, n: nat)
    requires 0.0 <= d <= 1.0 && w <= top && (top >= 0.0 || d == 1.0) && mine >= d * top && n >= 2
    ensures mine * d >= After(w, d, n)
  {
    WorthBelow(w, top, d, n - 2);
    Decayed(w, d, n - 2);
    Decayed(w, d, n - 1);
    TwiceBelow(After(w, d, n - 2), top, mine, d);
  }

  lemma HeaviestHoldsUp(seeds: seq<(string, real)>, decay: real, m: nat)
    requires 0.0 <= decay <= 1.0 && Even(seeds, decay)
    requires m < |seeds| && forall k :: 0 <= k < |seeds| ==> seeds[k].1 <= seeds[m].1
    ensures seeds[m].1 >= 0.0 || decay == 1.0
  {
    assert Matches(seeds, decay, m, m);
    NonnegativeOrWhole(seeds[m].1, decay);
  }

  lemma OneStep(q: Quest, k: nat, p: seq<string>)
    requires k < |q.seeds| && |p| == 2
    ensures Worth(q, k, p) == q.seeds[k].1 * q.decay
  {
    assert Pow(q.decay, 1) == 1.0 * q.decay;
  }

  lemma OneHopPays(q: Quest, out: seq<Hit>, expanded: seq<(string, real)>, parents: seq<nat>, bound: nat, h: Hit,
      k: nat, p: seq<string>)
    requires Answered(q, out, expanded, parents, bound) && h in out && PathTo(q, k, p, h.uri) && |p| <= 2
    ensures h.score >= Worth(q, k, p)
  {
    HitIsNoSeed(q, Table(out), bound, h.uri);
    assert q.seeds[k].0 in SeedSet(q.seeds);
    if |p| == 2 {
      WalkEnds(q, k, p);
      SeedsCount(q, out, Table(out), expanded, bound, k, h);
      OneStep(q, k, p);
    }
  }

  // With room for one hit, even weights suffice.
  lemma EvenSuffices(q: Quest, out: seq<Hit>, expanded: seq<(string, real)>, parents: seq<nat>, bound: nat, h: Hit,
      k: nat, p: seq<string>)
    requires 0.0 <= q.decay <= 1.0 && q.limit == 1 && Even(q.seeds, q.decay)
    requires Answered(q, out, expanded, parents, bound) && h in out && PathTo(q, k, p, h.uri)
    ensures h.score >= Worth(q, k, p)
  {
    if |p| <= 2 {
      OneHopPays(q, out, expanded, parents, bound, h, k, p);
    } else {
      var j := OnlyHit(q, Table(out), bound, h.uri);
      var m := Heaviest(q.seeds);
      HeaviestHoldsUp(q.seeds, q.decay, m);
      assert Matches(q.seeds, q.decay, m, j);
      var i: nat :| i < |q.seeds| && q.seeds[i].0 == q.seeds[j].0 && q.seeds[i].1 >= q.decay * q.seeds[m].1;
      SeedsCount(q, out, Table(out), expanded, bound, i, h);
      EvenPays(q.seeds[k].1, q.seeds[m].1, q.seeds[i].1, q.decay, |p| - 1);
    }
  }

  // On every graph the answers keep the best-path promise.
  ghost predicate Kept(seeds: seq<(string, real)>, decay: real, limit: nat, bound: nat) {
    forall net, out, expanded, parents
      {:trigger Answered(Quest(net, seeds, decay, limit), out, expanded, parents, bound)} ::
      Answered(Quest(net, seeds, decay, limit), out, expanded, parents, bound) ==>
        BestPaths(Quest(net, seeds, decay, limit), out, bound)
  }

  // Whether the weights suit the room there is.
  ghost predicate Suits(seeds: seq<(string, real)>, decay: real, limit: nat, bound: nat) {
    if bound <= 1 || limit == 0 then true else if limit == 1 then Even(seeds, decay) else Steady(seeds, decay)
  }

  lemma EvenKeeps(q: Quest, out: seq<Hit>, expanded: seq<(string, real)>, parents: seq<nat>, bound: nat)
    requires 0.0 <= q.decay <= 1.0 && q.limit == 1 && Even(q.seeds, q.decay)
    requires Answered(q, out, expanded, parents, bound)
    ensures BestPaths(q, out, bound)
  {
    forall h, k: nat, p | h in out && PathTo(q, k, p, h.uri) && |p| <= bound + 1 ensures h.score >= Worth(q, k, p) {
      EvenSuffices(q, out, expanded, parents, bound, h, k, p);
    }
  }

  lemma SteadyKeeps(q: Quest, out: seq<Hit>, expanded: seq<(string, real)>, parents: seq<nat>, bound: nat)
    requires 0.0 <= q.decay <= 1.0 && Steady(q.seeds, q.decay) && Answered(q, out, expanded, parents, bound)
    ensures BestPaths(q, out, bound)
  {
    forall h, k: nat, p | h in out && PathTo(q, k, p, h.uri) && |p| <= bound + 1 ensures h.score >= Worth(q, k, p) {
      SteadySuffices(q, out, expanded, parents, bound, h, k, p);
    }
  }

  lemma OneHopAnswer(q: Quest, out: seq<Hit>, expanded: seq<(string, real)>, parents: seq<nat>, bound: nat)
    requires (bound <= 1 || q.limit == 0) && Answered(q, out, expanded, parents, bound)
    ensures BestPaths(q, out, bound)
  {
    if q.limit == 0 {
      assert out == [];
    } else {
      forall h, k: nat, p | h in out && PathTo(q, k, p, h.uri) && |p| <= bound + 1 ensures h.score >= Worth(q, k, p) {
        OneHopPays(q, out, expanded, parents, bound, h, k, p);
      }
    }
  }

  lemma SuitedKeeps(q: Quest, out: seq<Hit>, expanded: seq<(string, real)>, parents: seq<nat>, bound: nat)
    requires 0.0 <= q.decay <= 1.0 && Suits(q.seeds, q.decay, q.limit, bound)
    requires Answered(q, out, expanded, parents, bound)
    ensures BestPaths(q, out, bound)
  {
    if bound <= 1 || q.limit == 0 {
      OneHopAnswer(q, out, expanded, parents, bound);
    } else if q.limit == 1 {
      EvenKeeps(q, out, expanded, parents, bound);
    } else {
      SteadyKeeps(q, out, expanded, parents, bound);
    }
  }

  // The promise is kept, on every graph, exactly for steady weights; with room for one hit exactly
  // for even ones; with no room, or at depth one, for any.
  lemma BestPathsIff(seeds: seq<(string, real)>, decay: real, limit: nat, bound: nat)
    requires 0.0 < decay <= 1.0
    ensures Kept(seeds, decay, limit, bound) <==> Suits(seeds, decay, limit, bound)
  {
    if Suits(seeds, decay, limit, bound) {
      forall net, out, expanded, parents | Answered(Quest(net, seeds, decay, limit), out, expanded, parents, bound)
        ensures BestPaths(Quest(net, seeds, decay, limit), out, bound)
      {
        SuitedKeeps(Quest(net, seeds, decay, limit), out, expanded, parents, bound);
      }
    } else {
      var net;
      if limit == 1 {
        net := UnevenFails(seeds, decay, limit, bound);
      } else {
        net := UnsteadyFails(seeds, decay, limit, bound);
      }
      var out, expanded, parents := SomeAnswer(Quest(net, seeds, decay, limit), bound);
    }
  }

  // At depth one, the default, the promise is kept for any weights; with no room it is empty.
  lemma OneHopKept(seeds: seq<(string, real)>, decay: real, limit: nat, bound: nat)
    requires bound <= 1 || limit == 0
    ensures Kept(seeds, decay, limit, bound)
  {
    forall net, out, expanded, parents | Answered(Quest(net, seeds, decay, limit), out, expanded, parents, bound)
      ensures BestPaths(Quest(net, seeds, decay, limit), out, bound)
    {
      OneHopAnswer(Quest(net, seeds, decay, limit), out, expanded, parents, bound);
    }
  }

  ghost predicate DistinctUris(seeds: seq<(string, real)>) {
    forall i, j :: 0 <= i < j < |seeds| ==> seeds[i].0 != seeds[j].0
  }

  // Seeds with different uris are steady when their weights are listed falling, the last at least
  // the first decayed once.
  lemma SteadyDistinct(seeds: seq<(string, real)>, decay: real)
    requires DistinctUris(seeds) && seeds != []
    ensures Steady(seeds, decay) <==>
      (forall i, j :: 0 <= i < j < |seeds| ==> seeds[i].1 >= seeds[j].1) && seeds[|seeds| - 1].1 >= decay * seeds[0].1
  {
    forall j: nat | j < |seeds| ensures Lead(seeds, j) {
    }
    if Steady(seeds, decay) {
      forall i: nat, j: nat | i < j < |seeds| ensures seeds[i].1 >= seeds[j].1 { assert Falls(seeds, i, j); }
      assert HoldsUp(seeds, decay, |seeds| - 1);
    }
  }

  // The weights recall gives its seeds: 1, 1/2, 1/3, ...
  function RankWeights(uris: seq<string>): (seeds: seq<(string, real)>)
    ensures |seeds| == |uris| && forall i :: 0 <= i < |uris| ==> seeds[i] == (uris[i], 1.0 / (1 + i) as real)
  {
    seq(|uris|, i requires 0 <= i < |uris| => (uris[i], 1.0 / (1 + i) as real))
  }

  lemma Cancel(x: real, y: real, d: real)
    requires x * d >= y * d && d > 0.0
    ensures x >= y
  {
  }

  lemma InverseFalls(a: real, b: real)
    requires 0.0 < a <= b
    ensures 1.0 / a >= 1.0 / b
  {
    var x, y := 1.0 / a, 1.0 / b;
    assert x * a == 1.0 && y * b == 1.0;
    TimesKeeps(b, a, x);
    Cancel(x, y, b);
  }

  lemma RanksFall(i: nat, j: nat)
    requires i <= j
    ensures 1.0 / (1 + i) as real >= 1.0 / (1 + j) as real
  {
    InverseFalls((1 + i) as real, (1 + j) as real);
  }

  lemma RankedSteady(uris: seq<string>, decay: real)
    requires uris != [] && DistinctUris(RankWeights(uris))
    ensures Steady(RankWeights(uris), decay) <==> 1.0 / |uris| as real >= decay
  {
    var seeds := RankWeights(uris);
    SteadyDistinct(seeds, decay);
    forall i, j | 0 <= i < j < |seeds| ensures seeds[i].1 >= seeds[j].1 { RanksFall(i, j); }
    assert seeds[0].1 == 1.0 / 1.0;
    assert decay * seeds[0].1 == decay;
  }

  // So recall's riders carry best-path scores on every graph exactly when the last seed's rank is
  // no more than 1/decay.
  lemma RankedSeeds(uris: seq<string>, decay: real, limit: nat, bound: nat)
    requires 0.0 < decay <= 1.0 && limit >= 2 && bound >= 2 && uris != [] && DistinctUris(RankWeights(uris))
    ensures Kept(RankWeights(uris), decay, limit, bound) <==> 1.0 / |uris| as real >= decay
  {
    var seeds := RankWeights(uris);
    BestPathsIff(seeds, decay, limit, bound);
    RankedSteady(uris, decay);
  }

  lemma HalfOrMore(n: nat)
    requires n > 0
    ensures 1.0 / n as real >= 0.5 <==> n <= 2
  {
    if n <= 2 {
      InverseFalls(n as real, 2.0);
    } else {
      InverseFalls(3.0, n as real);
    }
  }

  // At the default decay of one half: for two seeds, and for no more.
  lemma TwoSeedsAtMost(uris: seq<string>, limit: nat, bound: nat)
    requires limit >= 2 && bound >= 2 && uris != [] && DistinctUris(RankWeights(uris))
    ensures Kept(RankWeights(uris), 0.5, limit, bound) <==> |uris| <= 2
  {
    RankedSeeds(uris, 0.5, limit, bound);
    HalfOrMore(|uris|);
  }
}
