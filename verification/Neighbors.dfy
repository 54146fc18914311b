// The plain traversal of src/sqlite.rs: a breadth-first walk cut by depth and by the number of
// nodes returned.
module Neighbors {
  import opened Records
  import opened Walks

  ghost predicate NoDuplicates(s: seq<string>) {
    forall i, j :: 0 <= i < j < |s| ==> s[i] != s[j]
  }

  ghost predicate FoundAt(net: Net, seeds: set<string>, n: string, hop: nat, upTo: nat) {
    n !in seeds && 1 <= hop <= upTo && AtLevel(net, seeds, n, hop)
  }

  // Each node found is new, no seed, and found at its own distance; distances do not decrease.
  ghost predicate Found(net: Net, seeds: set<string>, out: seq<string>, hops: seq<nat>, upTo: nat) {
    && |hops| == |out| && NoDuplicates(out) && Rising(hops)
    && (forall i {:trigger FoundAt(net, seeds, out[i], hops[i], upTo)} :: 0 <= i < |out| ==>
      FoundAt(net, seeds, out[i], hops[i], upTo))
  }

  // A visited uri is a seed, was returned, or may not be seen.
  ghost predicate Accounted(net: Net, seeds: set<string>, visited: set<string>, out: seq<string>) {
    && seeds <= visited
    && (forall n :: n in out ==> n in visited)
    && (forall n :: n in visited ==> n in seeds || n in out || !net.visible(n))
  }

  ghost predicate Covers(seeds: set<string>, out: seq<string>, b: set<string>) {
    forall n :: n in b ==> n in seeds || n in out
  }

  lemma NoDuplicatesSnoc(s: seq<string>, h: string)
    requires NoDuplicates(s) && h !in s
    ensures NoDuplicates(s + [h])
  {
  }

  lemma RisingSnoc(hops: seq<nat>, d: nat)
    requires Rising(hops) && forall i :: 0 <= i < |hops| ==> hops[i] <= d
    ensures Rising(hops + [d])
  {
  }

  lemma FoundSnoc(net: Net, seeds: set<string>, out: seq<string>, hops: seq<nat>, h: string, d: nat)
    requires Found(net, seeds, out, hops, d) && d >= 1 && h !in out && h !in seeds && AtLevel(net, seeds, h, d)
    ensures Found(net, seeds, out + [h], hops + [d], d)
  {
    forall i | 0 <= i < |out| ensures FoundAt(net, seeds, (out + [h])[i], (hops + [d])[i], d) && hops[i] <= d {
      assert FoundAt(net, seeds, out[i], hops[i], d);
    }
    NoDuplicatesSnoc(out, h);
    RisingSnoc(hops, d);
  }

  lemma FoundOne(net: Net, seeds: set<string>, visited: set<string>, out: seq<string>, hops: seq<nat>, u: string,
      h: string, k: nat)
    requires Found(net, seeds, out, hops, k + 1) && Accounted(net, seeds, visited, out)
    requires Covers(seeds, out, Ball(net, seeds, k)) && u in Ball(net, seeds, k) && Step(net, u, h) && h !in visited
    ensures Found(net, seeds, out + [h], hops + [k + 1], k + 1)
    ensures Accounted(net, seeds, visited + {h}, out + [h])
  {
    StepLevel(net, seeds, u, h, k);
    assert h !in Ball(net, seeds, k);
    FoundSnoc(net, seeds, out, hops, h, k + 1);
  }

  ghost predicate AllJoined(edges: set<Edge>, u: string, hits: seq<string>) {
    forall h {:trigger Joined(edges, u, h)} :: h in hits <==> Joined(edges, u, h)
  }

  lemma HitJoined(edges: set<Edge>, u: string, hits: seq<string>, i: nat)
    requires AllJoined(edges, u, hits) && i < |hits|
    ensures Joined(edges, u, hits[i])
  {
  }

  // The uris joined to `u`, each once, in no particular order.
  method Adjacent(edges: set<Edge>, u: string) returns (hits: seq<string>)
    ensures NoDuplicates(hits)
    ensures AllJoined(edges, u, hits)
  {
    hits := [];
    var todo := (set e | e in edges && e.fromUri == u :: e.toUri) + (set e | e in edges && e.toUri == u :: e.fromUri);
    ghost var all := todo;
    assert forall h :: h in all <==> Joined(edges, u, h);
    while todo != {}
      invariant todo <= all && NoDuplicates(hits)
      invariant forall h :: h in all <==> h in todo || h in hits
      invariant forall h :: h in hits ==> h !in todo
    {
      var h :| h in todo;
      hits := hits + [h];
      todo := todo - {h};
    }
  }

  lemma AppendTwice(a: seq<string>, b: seq<string>, c: seq<string>)
    ensures a + b + c == a + (b + c)
  {
  }

  lemma FoundNext(net: Net, seeds: set<string>, visited: set<string>, out: seq<string>, added: seq<string>,
      hops: seq<nat>, u: string, h: string, k: nat)
    requires Found(net, seeds, out + added, hops, k + 1) && Accounted(net, seeds, visited, out + added)
    requires Covers(seeds, out, Ball(net, seeds, k)) && u in Ball(net, seeds, k) && Step(net, u, h) && h !in visited
    ensures Found(net, seeds, out + (added + [h]), hops + [k + 1], k + 1)
    ensures Accounted(net, seeds, visited + {h}, out + (added + [h]))
  {
    FoundOne(net, seeds, visited, out + added, hops, u, h, k);
    AppendTwice(out, added, [h]);
  }

  lemma Unseen(net: Net, seeds: set<string>, visited: set<string>, out: seq<string>, h: string)
    requires Accounted(net, seeds, visited, out) && !net.visible(h)
    ensures Accounted(net, seeds, visited + {h}, out)
  {
  }

  ghost predicate Dealt(visited: set<string>, hits: seq<string>, i: nat) {
    forall j :: 0 <= j < i && j < |hits| ==> hits[j] in visited
  }

  // Everything one step from `u` is a seed or was returned.
  ghost predicate NodeExplored(net: Net, seeds: set<string>, u: string, out: seq<string>) {
    forall h :: Step(net, u, h) ==> h in seeds || h in out
  }

  lemma NodeDone(net: Net, seeds: set<string>, visited: set<string>, out: seq<string>, u: string, hits: seq<string>)
    requires Accounted(net, seeds, visited, out) && Dealt(visited, hits, |hits|)
    requires AllJoined(net.edges, u, hits)
    ensures NodeExplored(net, seeds, u, out)
  {
    forall h | Step(net, u, h) ensures h in seeds || h in out {
      assert h in hits;
    }
  }

  method Visit(net: Net, ghost seeds: set<string>, ghost k: nat, ghost u: string, h: string, visited: set<string>,
      ghost out: seq<string>, added: seq<string>, ghost hops: seq<nat>)
    returns (visited': set<string>, added': seq<string>, ghost hops': seq<nat>)
    requires Found(net, seeds, out + added, hops, k + 1) && Accounted(net, seeds, visited, out + added)
    requires Covers(seeds, out, Ball(net, seeds, k)) && u in Ball(net, seeds, k) && Joined(net.edges, u, h)
    requires h !in visited
    ensures Found(net, seeds, out + added', hops', k + 1) && Accounted(net, seeds, visited', out + added')
    ensures visited' == visited + {h} && |added'| <= |added| + 1
  {
    visited', added', hops' := visited + {h}, added, hops;
    if net.visible(h) {
      FoundNext(net, seeds, visited, out, added, hops, u, h, k);
      added', hops' := added + [h], hops + [k + 1];
    } else {
      Unseen(net, seeds, visited, out + added, h);
    }
  }

  // The nodes one expansion adds, to the frontier and to the answer alike.
  method ExpandNode(net: Net, ghost seeds: set<string>, ghost k: nat, u: string, visited: set<string>, out: seq<string>,
      ghost hops: seq<nat>, limit: nat)
    returns (visited': set<string>, added: seq<string>, ghost hops': seq<nat>)
    requires |out| < limit && u in Ball(net, seeds, k)
    requires Found(net, seeds, out, hops, k + 1) && Accounted(net, seeds, visited, out)
    requires Covers(seeds, out, Ball(net, seeds, k))
    ensures Found(net, seeds, out + added, hops', k + 1) && Accounted(net, seeds, visited', out + added)
    ensures |out + added| <= limit
    ensures |out + added| < limit ==> NodeExplored(net, seeds, u, out + added)
  {
    visited', added, hops' := visited, [], hops;
    assert out + added == out;
    var hits := Adjacent(net.edges, u);
    ghost var all := out;
    for i := 0 to |hits|
      invariant all == out + added && Found(net, seeds, all, hops', k + 1) && Accounted(net, seeds, visited', all)
      invariant |all| < limit && Dealt(visited', hits, i)
    {
      HitJoined(net.edges, u, hits, i);
      if hits[i] !in visited' {
        visited', added, hops' := Visit(net, seeds, k, u, hits[i], visited', out, added, hops');
        all := out + added;
        if |out| + |added| >= limit {
          return;
        }
      }
    }
    NodeDone(net, seeds, visited', all, u, hits);
  }

  ghost predicate Explored(net: Net, seeds: set<string>, nodes: seq<string>, out: seq<string>) {
    forall u, h :: u in nodes && Step(net, u, h) ==> h in seeds || h in out
  }

  lemma ExploredSnoc(net: Net, seeds: set<string>, nodes: seq<string>, u: string, out: seq<string>, added: seq<string>)
    requires Explored(net, seeds, nodes, out)
    requires NodeExplored(net, seeds, u, out + added)
    ensures Explored(net, seeds, nodes + [u], out + added)
  {
    forall w, h | w in nodes + [u] && Step(net, w, h) ensures h in seeds || h in out + added {
      if w in nodes { assert h in seeds || h in out; }
    }
  }

  // The frontier lies within `k` steps, and holds everything that is not within `k - 1`.
  ghost predicate Frontier(net: Net, seeds: set<string>, frontier: seq<string>, k: nat) {
    && (forall u :: u in frontier ==> u in Ball(net, seeds, k))
    && (forall u :: u in Ball(net, seeds, k) ==> u in frontier || (k > 0 && u in Ball(net, seeds, k - 1)))
  }

  lemma FrontierWithin(net: Net, seeds: set<string>, frontier: seq<string>, k: nat, j: nat)
    requires Frontier(net, seeds, frontier, k) && j < |frontier|
    ensures frontier[j] in Ball(net, seeds, k)
  {
  }

  lemma LevelComplete(net: Net, seeds: set<string>, out: seq<string>, frontier: seq<string>, k: nat)
    requires Covers(seeds, out, Ball(net, seeds, k)) && Frontier(net, seeds, frontier, k)
    requires Explored(net, seeds, frontier, out)
    ensures Covers(seeds, out, Ball(net, seeds, k + 1))
  {
    forall n | n in Ball(net, seeds, k + 1) ensures n in seeds || n in out {
      if n in Around(net, Ball(net, seeds, k)) {
        var u :| u in Ball(net, seeds, k) && Step(net, u, n);
        if k > 0 && u in Ball(net, seeds, k - 1) { StepLevel(net, seeds, u, n, k - 1); }
      }
    }
  }

  lemma FoundDeeper(net: Net, seeds: set<string>, out: seq<string>, hops: seq<nat>, k: nat, depth: nat)
    requires k <= depth && Found(net, seeds, out, hops, k)
    ensures Found(net, seeds, out, hops, depth)
  {
    forall i | 0 <= i < |out| ensures FoundAt(net, seeds, out[i], hops[i], depth) {
      assert FoundAt(net, seeds, out[i], hops[i], k);
    }
  }

  method ExpandLevel(net: Net, ghost seeds: set<string>, ghost k: nat, frontier: seq<string>, visited: set<string>,
      out: seq<string>, ghost hops: seq<nat>, limit: nat)
    returns (visited': set<string>, next: seq<string>, ghost hops': seq<nat>)
    requires |out| < limit && Covers(seeds, out, Ball(net, seeds, k)) && Frontier(net, seeds, frontier, k)
    requires Found(net, seeds, out, hops, k) && Accounted(net, seeds, visited, out)
    ensures Found(net, seeds, out + next, hops', k + 1) && Accounted(net, seeds, visited', out + next)
    ensures |out + next| <= limit
    ensures |out + next| < limit ==> Covers(seeds, out + next, Ball(net, seeds, k + 1))
  {
    visited', next, hops' := visited, [], hops;
    assert out + next == out;
    FoundDeeper(net, seeds, out, hops, k, k + 1);
    for j := 0 to |frontier|
      invariant Found(net, seeds, out + next, hops', k + 1) && Accounted(net, seeds, visited', out + next)
      invariant |out + next| < limit && Covers(seeds, out + next, Ball(net, seeds, k))
      invariant Explored(net, seeds, frontier[..j], out + next)
    {
      FrontierWithin(net, seeds, frontier, k, j);
      var added;
      visited', added, hops' := ExpandNode(net, seeds, k, frontier[j], visited', out + next, hops', limit);
      AppendTwice(out, next, added);
      if |out| + |next + added| >= limit {
        next := next + added;
        return;
      }
      ExploredSnoc(net, seeds, frontier[..j], frontier[j], out + next, added);
      PrefixSnoc(frontier, j);
      next := next + added;
    }
    assert frontier[..|frontier|] == frontier;
    LevelComplete(net, seeds, out + next, frontier, k);
  }

  function SeedSet(seeds: seq<string>): set<string> {
    set s | s in seeds
  }

  lemma NothingReached(net: Net, seeds: seq<string>, depth: nat)
    requires seeds == [] || depth == 0
    ensures forall n :: n in Ball(net, SeedSet(seeds), depth) ==> n in seeds
  {
    if seeds == [] {
      assert SeedSet(seeds) == {};
      BallOfNothing(net, depth);
    }
  }

  lemma FoundInBall(net: Net, seeds: set<string>, out: seq<string>, hops: seq<nat>, k: nat)
    requires Found(net, seeds, out, hops, k)
    ensures forall n :: n in out ==> n in Ball(net, seeds, k)
  {
    forall n | n in out ensures n in Ball(net, seeds, k) {
      var i :| 0 <= i < |out| && out[i] == n;
      assert FoundAt(net, seeds, out[i], hops[i], k);
      BallGrows(net, seeds, hops[i], k);
    }
  }

  // The nodes just added are the next level, unless the limit cut it.
  lemma NextFrontier(net: Net, seeds: set<string>, before: seq<string>, hopsBefore: seq<nat>, next: seq<string>,
      hops: seq<nat>, k: nat)
    requires Found(net, seeds, before, hopsBefore, k) && Found(net, seeds, before + next, hops, k + 1)
    ensures Covers(seeds, before + next, Ball(net, seeds, k + 1)) ==> Frontier(net, seeds, next, k + 1)
  {
    FoundInBall(net, seeds, before, hopsBefore, k);
    FoundInBall(net, seeds, before + next, hops, k + 1);
    BallGrows(net, seeds, 0, k);
    forall u | u in next ensures u in Ball(net, seeds, k + 1) { assert u in before + next; }
  }

  // An empty level is the last one.
  lemma LastLevel(net: Net, seeds: set<string>, out: seq<string>, hops: seq<nat>, k: nat, depth: nat)
    requires k < depth && Found(net, seeds, out, hops, k) && Covers(seeds, out, Ball(net, seeds, k + 1))
    ensures Covers(seeds, out, Ball(net, seeds, depth))
  {
    FoundInBall(net, seeds, out, hops, k);
    BallGrows(net, seeds, 0, k);
    BallGrows(net, seeds, k, k + 1);
    assert Ball(net, seeds, k + 1) <= Ball(net, seeds, k);
    BallStops(net, seeds, k, depth);
  }

  lemma Answer(net: Net, seeds: set<string>, out: seq<string>, hops: seq<nat>, depth: nat)
    requires Found(net, seeds, out, hops, depth)
    ensures forall i :: 0 <= i < |out| ==> 1 <= hops[i] <= depth && AtDistance(net, seeds, out[i], hops[i])
    ensures forall n :: n in out ==> n !in seeds && n in Ball(net, seeds, depth)
  {
    FoundInBall(net, seeds, out, hops, depth);
    forall i | 0 <= i < |out|
      ensures 1 <= hops[i] <= depth && out[i] !in seeds && AtDistance(net, seeds, out[i], hops[i])
    {
      assert FoundAt(net, seeds, out[i], hops[i], depth);
      LevelIsDistance(net, seeds, out[i], hops[i]);
    }
  }

  // After `k` levels, as long as the limit did not cut them: the frontier is the last level.
  ghost predicate Reached(net: Net, seeds: set<string>, frontier: seq<string>, visited: set<string>, out: seq<string>,
      hops: seq<nat>, k: nat, limit: nat)
  {
    && |out| <= limit && Found(net, seeds, out, hops, k) && Accounted(net, seeds, visited, out)
    && (|out| < limit ==> Covers(seeds, out, Ball(net, seeds, k)) && Frontier(net, seeds, frontier, k))
  }

  method NextLevel(net: Net, ghost seeds: set<string>, ghost k: nat, ghost depth: nat, frontier: seq<string>,
      visited: set<string>, out: seq<string>, ghost hops: seq<nat>, limit: nat)
    returns (visited': set<string>, next: seq<string>, out': seq<string>, ghost hops': seq<nat>)
    requires k < depth && |out| < limit && Reached(net, seeds, frontier, visited, out, hops, k, limit)
    ensures Reached(net, seeds, next, visited', out', hops', k + 1, limit)
    ensures next == [] && |out'| < limit ==> Covers(seeds, out', Ball(net, seeds, depth))
  {
    visited', next, hops' := ExpandLevel(net, seeds, k, frontier, visited, out, hops, limit);
    out' := out + next;
    NextFrontier(net, seeds, out, hops, next, hops', k);
    if next == [] && |out'| < limit {
      assert out' == out;
      LastLevel(net, seeds, out, hops, k, depth);
    }
  }

  // The nodes within `depth` steps other than the seeds, each once; all of them, unless the limit
  // cut the answer.
  ghost predicate Nearby(net: Net, seeds: set<string>, depth: nat, limit: nat, out: seq<string>) {
    && NoDuplicates(out) && |out| <= limit
    && (forall n :: n in out ==> n !in seeds && n in Ball(net, seeds, depth))
    && (|out| < limit ==> forall n :: n in Ball(net, seeds, depth) && n !in seeds ==> n in out)
  }

  lemma Concluded(net: Net, seeds: set<string>, out: seq<string>, hops: seq<nat>, k: nat, depth: nat, limit: nat)
    requires k <= depth && Found(net, seeds, out, hops, k) && |out| <= limit
    requires |out| < limit ==> Covers(seeds, out, Ball(net, seeds, depth))
    ensures Nearby(net, seeds, depth, limit, out) && |hops| == |out| && Rising(hops)
    ensures forall i :: 0 <= i < |out| ==> 1 <= hops[i] <= depth && AtDistance(net, seeds, out[i], hops[i])
  {
    FoundDeeper(net, seeds, out, hops, k, depth);
    Answer(net, seeds, out, hops, depth);
  }

  method Neighbors(net: Net, seeds: seq<string>, depth: nat, limit: nat)
    returns (out: seq<string>, ghost hops: seq<nat>)
    ensures Nearby(net, SeedSet(seeds), depth, limit, out) && |hops| == |out| && Rising(hops)
    // Each node returned is hops[i] steps from a seed, through visible nodes, and no fewer.
    ensures forall i :: 0 <= i < |out| ==> 1 <= hops[i] <= depth && AtDistance(net, SeedSet(seeds), out[i], hops[i])
  {
    out, hops := [], [];
    ghost var S := SeedSet(seeds);
    if seeds == [] || depth == 0 || limit == 0 {
      if limit > 0 { NothingReached(net, seeds, depth); }
      Concluded(net, S, out, hops, 0, depth, limit);
      return;
    }
    var visited, frontier, k := SeedSet(seeds), seeds, 0;
    while k < depth && |out| < limit
      invariant k <= depth && Reached(net, S, frontier, visited, out, hops, k, limit)
    {
      var next;
      visited, next, out, hops := NextLevel(net, S, k, depth, frontier, visited, out, hops, limit);
      frontier, k := next, k + 1;
      if next == [] {
        break;
      }
    }
    Concluded(net, S, out, hops, k, depth, limit);
  }
}
