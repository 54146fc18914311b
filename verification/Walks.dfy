// Undirected walks over the edge set, as a reader may take them: the reference the two bounded
// traversals are measured against.
module Walks {
  import opened Records

  // The graph a reader walks: the stored edges, and which uris it may see.
  datatype Net = Net(edges: set<Edge>, visible: string -> bool)

  predicate Joined(edges: set<Edge>, a: string, b: string) {
    exists e :: e in edges && ((e.fromUri == a && e.toUri == b) || (e.fromUri == b && e.toUri == a))
  }

  // One step: along an edge in either direction, onto a uri the reader may see.
  predicate Step(net: Net, a: string, b: string) {
    Joined(net.edges, a, b) && net.visible(b)
  }

  ghost predicate Walk(net: Net, from: set<string>, p: seq<string>) {
    if |p| == 0 then false
    else if |p| == 1 then p[0] in from
    else Walk(net, from, p[..|p| - 1]) && Step(net, p[|p| - 2], p[|p| - 1])
  }

  ghost predicate WalkTo(net: Net, from: set<string>, p: seq<string>, n: string) {
    Walk(net, from, p) && p[|p| - 1] == n
  }

  // `n` is exactly `d` steps away: some walk takes `d` steps, and none takes fewer.
  ghost predicate AtDistance(net: Net, from: set<string>, n: string, d: nat) {
    && (exists p :: WalkTo(net, from, p, n) && |p| == d + 1)
    && (forall p :: WalkTo(net, from, p, n) ==> |p| >= d + 1)
  }

  function Ends(edges: set<Edge>): set<string> {
    (set e | e in edges :: e.fromUri) + (set e | e in edges :: e.toUri)
  }

  function Around(net: Net, b: set<string>): set<string> {
    set n | n in Ends(net.edges) && exists u :: u in b && Step(net, u, n)
  }

  function Widened(net: Net, b: set<string>): set<string> {
    b + Around(net, b)
  }

  // Everything within `k` steps.
  function Ball(net: Net, from: set<string>, k: nat): set<string> {
    if k == 0 then from else Widened(net, Ball(net, from, k - 1))
  }

  lemma StepIsAround(net: Net, b: set<string>, u: string, n: string)
    requires u in b && Step(net, u, n)
    ensures n in Around(net, b)
  {
  }

  lemma {:induction false} BallGrows(net: Net, from: set<string>, j: nat, k: nat)
    requires j <= k
    ensures Ball(net, from, j) <= Ball(net, from, k)
  {
    if j < k { BallGrows(net, from, j, k - 1); }
  }

  // A sequence of sets, each made from the one before: once two neighbours are equal it is
  // constant.
  lemma {:induction false} FixedPoint(f: set<string> -> set<string>, b: nat -> set<string>, j: nat, k: nat)
    requires forall i: nat, l: nat :: l == i + 1 ==> b(l) == f(b(i))
    requires j <= k && b(j + 1) == b(j)
    ensures b(k) == b(j)
  {
    if j < k {
      FixedPoint(f, b, j, k - 1);
      assert b(k) == f(b(k - 1));
    }
  }

  // Once a level adds nothing, no later level does.
  lemma BallStops(net: Net, from: set<string>, j: nat, k: nat)
    requires j <= k && Ball(net, from, j + 1) == Ball(net, from, j)
    ensures Ball(net, from, k) == Ball(net, from, j)
  {
    FixedPoint(s => Widened(net, s), (i: nat) => Ball(net, from, i), j, k);
  }

  lemma BallSettled(net: Net, from: set<string>, d: nat, k: nat)
    requires 0 < d <= k && Ball(net, from, d) == Ball(net, from, d - 1)
    ensures Ball(net, from, d) == Ball(net, from, k)
  {
    BallStops(net, from, d - 1, k);
  }

  lemma {:induction false} BallOfNothing(net: Net, k: nat)
    ensures Ball(net, {}, k) == {}
  {
    if k > 0 { BallOfNothing(net, k - 1); }
  }

  lemma AroundMonotone(net: Net, b: set<string>, c: set<string>)
    requires b <= c
    ensures Around(net, b) <= Around(net, c)
  {
  }

  // More starting points reach no less.
  lemma {:induction false} BallMonotone(net: Net, from: set<string>, more: set<string>, k: nat)
    requires from <= more
    ensures Ball(net, from, k) <= Ball(net, more, k)
  {
    if k > 0 {
      BallMonotone(net, from, more, k - 1);
      AroundMonotone(net, Ball(net, from, k - 1), Ball(net, more, k - 1));
    }
  }

  lemma {:induction false} WalkInBall(net: Net, from: set<string>, p: seq<string>)
    requires Walk(net, from, p)
    ensures p[|p| - 1] in Ball(net, from, |p| - 1)
  {
    if |p| > 1 {
      var front := p[..|p| - 1];
      WalkInBall(net, from, front);
      StepIsAround(net, Ball(net, from, |p| - 2), front[|front| - 1], p[|p| - 1]);
    }
  }

  lemma WalkSnoc(net: Net, from: set<string>, p: seq<string>, u: string, n: string)
    requires WalkTo(net, from, p, u) && Step(net, u, n)
    ensures WalkTo(net, from, p + [n], n)
  {
    assert (p + [n])[..|p|] == p;
  }

  lemma {:induction false} BallHasWalk(net: Net, from: set<string>, k: nat, n: string) returns (p: seq<string>)
    requires n in Ball(net, from, k)
    ensures WalkTo(net, from, p, n) && |p| <= k + 1
  {
    if k == 0 {
      p := [n];
    } else if n in Ball(net, from, k - 1) {
      p := BallHasWalk(net, from, k - 1, n);
    } else {
      var u :| u in Ball(net, from, k - 1) && Step(net, u, n);
      var q := BallHasWalk(net, from, k - 1, u);
      WalkSnoc(net, from, q, u, n);
      p := q + [n];
    }
  }

  // First reached at level `d`.
  predicate AtLevel(net: Net, from: set<string>, n: string, d: nat) {
    n in Ball(net, from, d) && (d > 0 ==> n !in Ball(net, from, d - 1))
  }

  // The level of a breadth-first walk is the shortest distance.
  lemma LevelIsDistance(net: Net, from: set<string>, n: string, d: nat)
    ensures AtLevel(net, from, n, d) <==> AtDistance(net, from, n, d)
  {
    if AtLevel(net, from, n, d) {
      forall p | WalkTo(net, from, p, n) ensures |p| >= d + 1 {
        WalkInBall(net, from, p);
        if |p| < d + 1 { BallGrows(net, from, |p| - 1, d - 1); }
      }
      var p := BallHasWalk(net, from, d, n);
      assert |p| == d + 1;
    }
    if AtDistance(net, from, n, d) {
      var p :| WalkTo(net, from, p, n) && |p| == d + 1;
      WalkInBall(net, from, p);
      if d > 0 && n in Ball(net, from, d - 1) {
        var q := BallHasWalk(net, from, d - 1, n);
      }
    }
  }

  lemma StepLevel(net: Net, from: set<string>, u: string, n: string, d: nat)
    requires u in Ball(net, from, d) && Step(net, u, n)
    ensures n in Ball(net, from, d + 1)
  {
    StepIsAround(net, Ball(net, from, d), u, n);
  }

  ghost predicate Rising(s: seq<nat>) {
    forall i, j :: 0 <= i < j < |s| ==> s[i] <= s[j]
  }

  lemma PrefixSnoc<T>(s: seq<T>, j: nat)
    requires j < |s|
    ensures s[..j + 1] == s[..j] + [s[j]]
  {
  }
}
