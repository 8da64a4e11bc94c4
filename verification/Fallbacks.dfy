/** Validation of the reviewers' fallback lists. */
module Fallbacks {
  import opened Permutations
  import opened Seqs

  const MAX_FALLBACK_CHAIN := 3

  datatype Reviewer = Reviewer(name: nat, enabled: bool, fallbacks: seq<nat>)

  type Graph = map<nat, Reviewer>

  /** Reviewers by name; a later entry of the same name wins. */
  function ByName(reviewers: seq<Reviewer>): (g: Graph)
    ensures forall r :: r in reviewers ==> r.name in g
    ensures forall n :: n in g ==> g[n] in reviewers && g[n].name == n
  {
    if reviewers == [] then map[]
    else
      var r := reviewers[|reviewers| - 1];
      assert reviewers == reviewers[..|reviewers| - 1] + [r];
      ByName(reviewers[..|reviewers| - 1])[r.name := r]
  }

  /** One reviewer's own list, looked at alone. */
  ghost predicate WellListed(g: Graph, r: Reviewer)
  {
    && r.name !in r.fallbacks && Distinct(r.fallbacks) && |r.fallbacks| <= MAX_FALLBACK_CHAIN
    && forall t :: t in r.fallbacks ==> t in g && g[t].enabled
  }

  method CheckList(g: Graph, r: Reviewer) returns (ok: bool)
    ensures ok <==> WellListed(g, r)
  {
    var seen: set<nat> := {};
    for i := 0 to |r.fallbacks|
      invariant forall t :: t in seen <==> t in r.fallbacks[..i]
      invariant r.name !in r.fallbacks[..i] && Distinct(r.fallbacks[..i])
      invariant forall t :: t in r.fallbacks[..i] ==> t in g && g[t].enabled
    {
      var target := r.fallbacks[i];
      assert target in r.fallbacks;
      if target == r.name {
        return false;
      }
      if target in seen {
        var j :| 0 <= j < i && r.fallbacks[..i][j] == target;
        assert r.fallbacks[j] == r.fallbacks[i];
        return false;
      }
      if target !in g || !g[target].enabled {
        return false;
      }
      TakeSnoc(r.fallbacks, i);
      seen := seen + {target};
    }
    assert r.fallbacks[..|r.fallbacks|] == r.fallbacks;
    ok := |r.fallbacks| <= MAX_FALLBACK_CHAIN;
  }

  // ------------------------------------------------------------------- cycles

  /** Each name lists the next among its fallbacks. */
  predicate Trail(g: Graph, w: seq<nat>)
  {
    |w| <= 1 || (w[0] in g && w[1] in g[w[0]].fallbacks && Trail(g, w[1..]))
  }

  ghost predicate Cycle(g: Graph, w: seq<nat>)
  {
    |w| >= 2 && Trail(g, w) && w[0] == w[|w| - 1]
  }

  ghost predicate Acyclic(g: Graph)
  {
    forall w :: !Cycle(g, w)
  }

  /** Every listed target exists. */
  ghost predicate Closed(g: Graph)
  {
    forall n, t :: n in g && t in g[n].fallbacks ==> t in g
  }

  /** A way from `name` that comes back to the path, or to itself. */
  ghost predicate Returns(g: Graph, name: nat, path: seq<nat>, w: seq<nat>)
  {
    |w| >= 2 && w[0] == name && Trail(g, w) && w[|w| - 1] in path + w[..|w| - 1]
  }

  ghost predicate Avoids(g: Graph, name: nat, path: seq<nat>)
  {
    forall w :: |w| >= 2 && w[0] == name && Trail(g, w) ==> w[|w| - 1] !in path
  }

  ghost predicate IsPath(g: Graph, name: nat, path: seq<nat>)
  {
    path != [] && path[|path| - 1] == name && Distinct(path) && forall n :: n in path ==> n in g
  }

  lemma {:induction false} PathFits(path: seq<nat>, names: set<nat>)
    requires Distinct(path) && forall n :: n in path ==> n in names
    ensures |path| <= |names|
    decreases |path|
  {
    if path != [] {
      var last := path[|path| - 1];
      assert last in path;
      forall n | n in path[..|path| - 1]
        ensures n in names - {last}
      {
        assert n in path;
      }
      PathFits(path[..|path| - 1], names - {last});
    }
  }

  /** Follow every chain; the walk ends because a path never repeats a name. */
  method Walk(g: Graph, name: nat, path: seq<nat>) returns (ok: bool)
    requires Closed(g) && IsPath(g, name, path)
    ensures ok ==> Avoids(g, name, path)
    ensures !ok ==> exists w :: Returns(g, name, path, w)
    decreases |g| - |path|
  {
    var targets := g[name].fallbacks;
    PathFits(path, g.Keys);
    for i := 0 to |targets|
      invariant forall t :: t in targets[..i] ==> t !in path && Avoids(g, t, path + [t])
    {
      var target := targets[i];
      assert target in g[name].fallbacks;
      if target in path {
        BackAtOnce(g, name, path, target);
        return false;
      }
      PathFits(path + [target], g.Keys);
      ok := Walk(g, target, path + [target]);
      if !ok {
        BackLater(g, name, path, target);
        return false;
      }
      TakeSnoc(targets, i);
    }
    assert targets[..|targets|] == targets;
    AllAvoid(g, name, path);
    ok := true;
  }

  lemma BackAtOnce(g: Graph, name: nat, path: seq<nat>, target: nat)
    requires name in g && target in g[name].fallbacks && target in path
    ensures exists w :: Returns(g, name, path, w)
  {
    assert Returns(g, name, path, [name, target]);
  }

  lemma BackLater(g: Graph, name: nat, path: seq<nat>, target: nat)
    requires name in g && target in g[name].fallbacks && exists w :: Returns(g, target, path + [target], w)
    ensures exists w :: Returns(g, name, path, w)
  {
    var w :| Returns(g, target, path + [target], w);
    var longer := [name] + w;
    assert longer[1..] == w;
    assert longer[..|longer| - 1] == [name] + w[..|w| - 1];
    assert w[..|w| - 1][0] == target;
    assert w[|w| - 1] in path || w[|w| - 1] in w[..|w| - 1];
    assert Returns(g, name, path, longer);
  }

  lemma AllAvoid(g: Graph, name: nat, path: seq<nat>)
    requires name in g
    requires forall t :: t in g[name].fallbacks ==> t !in path && Avoids(g, t, path + [t])
    ensures Avoids(g, name, path)
  {
    forall w | |w| >= 2 && w[0] == name && Trail(g, w)
      ensures w[|w| - 1] !in path
    {
      if |w| > 2 {
        var rest := w[1..];
        assert rest[|rest| - 1] !in path + [w[1]];
      }
    }
  }

  lemma {:induction false} TrailSuffix(g: Graph, w: seq<nat>, k: nat)
    requires Trail(g, w) && k <= |w|
    ensures Trail(g, w[k..])
    decreases k
  {
    if k > 0 && |w| > 1 {
      TrailSuffix(g, w[1..], k - 1);
      assert w[1..][k - 1..] == w[k..];
    } else {
      assert k == 0 ==> w[k..] == w;
    }
  }

  /** Coming back closes a cycle somewhere along the way. */
  lemma ReturnIsCycle(g: Graph, name: nat, w: seq<nat>)
    requires Returns(g, name, [name], w)
    ensures exists c :: Cycle(g, c)
  {
    var last := w[|w| - 1];
    var k :| 0 <= k < |w| - 1 && w[k] == last;
    TrailSuffix(g, w, k);
    assert Cycle(g, w[k..]);
  }

  // --------------------------------------------------------------- the verdict

  /** What a valid table is. */
  ghost predicate Valid(reviewers: seq<Reviewer>)
  {
    (forall r :: r in reviewers ==> WellListed(ByName(reviewers), r)) && Acyclic(ByName(reviewers))
  }

  /** Two passes: every list alone, then every chain. It ends, and accepts exactly the valid tables. */
  method ValidateFallbacks(reviewers: seq<Reviewer>) returns (ok: bool)
    ensures ok <==> Valid(reviewers)
  {
    var g := ByName(reviewers);
    for i := 0 to |reviewers|
      invariant forall r :: r in reviewers[..i] ==> WellListed(g, r)
    {
      assert reviewers[i] in reviewers;
      var listed := CheckList(g, reviewers[i]);
      if !listed {
        return false;
      }
      TakeSnoc(reviewers, i);
    }
    assert reviewers[..|reviewers|] == reviewers;
    assert Closed(g);
    for i := 0 to |reviewers|
      invariant forall r :: r in reviewers[..i] && r.fallbacks != [] ==> Avoids(g, r.name, [r.name])
    {
      var r := reviewers[i];
      assert r in reviewers;
      TakeSnoc(reviewers, i);
      if r.fallbacks != [] {
        var clear := Walk(g, r.name, [r.name]);
        if !clear {
          ghost var w :| Returns(g, r.name, [r.name], w);
          ReturnIsCycle(g, r.name, w);
          return false;
        }
      }
    }
    assert reviewers[..|reviewers|] == reviewers;
    NoCycleLeft(reviewers);
    ok := true;
  }

  /** A cycle would be found from any of its own names. */
  lemma NoCycleLeft(reviewers: seq<Reviewer>)
    requires forall r :: r in reviewers && r.fallbacks != [] ==> Avoids(ByName(reviewers), r.name, [r.name])
    ensures Acyclic(ByName(reviewers))
  {
    var g := ByName(reviewers);
    forall w | |w| >= 2 && Trail(g, w)
      ensures w[0] != w[|w| - 1]
    {
      var r := g[w[0]];
      assert r in reviewers && r.fallbacks != [];
      assert Avoids(g, r.name, [r.name]);
    }
  }

  /** Shared fallbacks are no cycle: whenever names can be ranked so that every fallback ranks higher, the graph passes. */
  lemma RankedIsAcyclic(g: Graph, rank: nat -> nat)
    requires forall n, t :: n in g && t in g[n].fallbacks ==> rank(n) < rank(t)
    ensures Acyclic(g)
  {
    forall w | |w| >= 2 && Trail(g, w)
      ensures w[0] != w[|w| - 1]
    {
      Upwards(g, rank, w);
    }
  }

  lemma {:induction false} Upwards(g: Graph, rank: nat -> nat, w: seq<nat>)
    requires forall n, t :: n in g && t in g[n].fallbacks ==> rank(n) < rank(t)
    requires Trail(g, w) && |w| >= 2
    ensures rank(w[0]) < rank(w[|w| - 1])
    decreases |w|
  {
    if |w| > 2 {
      Upwards(g, rank, w[1..]);
    }
  }
}
